/**
 * scripts/generate-predictions.js: the player ordering, the statistical
 * insights, the single-race prediction record (raceId, pick, confidence,
 * reasoning, the empty result) and the loop over every venue's races.
 *
 * Rates arrive already at their printed precision: a win rate in hundredths
 * (6.53 is 653) and a 2-rate in tenths (38.4 is 384), so `toFixed` prints them
 * exactly and `parseFloat` of the printed text compares like the integer.
 */
module Predictions {
  import opened Wrappers
  import opened Strings
  import opened Seqs
  import opened Sorting
  import opened Bets

  // ---------------------------------------------------------------- records

  /** A racer of races.json. */
  datatype Racer = Racer(
    lane: int, name: string, grade: string, age: int,
    globalWinRate: nat, localWinRate: nat,
    motorNumber: int, motor2Rate: nat,
    boatNumber: int, boat2Rate: nat)

  /** A player of the prediction: boat number, racer data and AI score. */
  datatype Player = Player(
    number: int, name: string, grade: string, age: int,
    winRate: nat, localWinRate: nat,
    motorNumber: int, motor2Rate: nat,
    boatNumber: int, boat2Rate: nat,
    aiScore: int)

  /** A race of races.json. */
  datatype RaceInput = RaceInput(date: string, raceNo: nat, startTime: string, racers: seq<Racer>)

  /** A venue of races.json. */
  datatype VenueInput = VenueInput(placeCd: nat, placeName: string, races: seq<RaceInput>)

  /** The `prediction` object of a race. */
  datatype Prediction = Prediction(
    topPick: int, top3: seq<int>, confidence: int,
    players: seq<Player>, reasoning: seq<string>)

  /** One generated race record. */
  datatype RacePrediction = RacePrediction(
    raceId: string, venue: string, venueCode: nat, raceNumber: nat,
    startTime: string, prediction: Prediction, result: Result, accuracy: Accuracy)

  // ---------------------------------------------------------------- printing

  function Pow10(k: nat): (p: nat)
    ensures p > 0
  {
    if k == 0 then 1 else 10 * Pow10(k - 1)
  }

  lemma DivModNat(n: nat, q: nat)
    requires q > 0
    ensures n / q >= 0 && 0 <= n % q < q
  {
  }

  /** `x.toFixed(places)` of the fixed-point value n / 10^places. */
  function Fixed(n: nat, places: nat): string
    requires places > 0
  {
    var q := Pow10(places);
    DivModNat(n, q);
    var whole: nat := n / q;
    var frac: nat := n % q;
    NatToString(whole) + "." + PadStart(NatToString(frac), places, '0')
  }

  /** A number below 10^k prints with at most k digits. */
  lemma {:induction false} NatToStringFits(m: nat, k: nat)
    requires k >= 1 && m < Pow10(k)
    ensures |NatToString(m)| <= k
  {
    assert Pow10(1) == 10;
    if m >= 10 {
      assert m / 10 < Pow10(k - 1) by {
        assert Pow10(k) == 10 * Pow10(k - 1);
      }
      NatToStringFits(m / 10, k - 1);
      assert NatToString(m) == NatToString(m / 10) + [DigitChar(m % 10)];
    }
  }

  /** `toFixed(places)` of n / 10^places prints the whole part, a point and
      exactly `places` fractional digits, and reading the two digit runs back
      gives n again. */
  lemma FixedSpec(n: nat, places: nat)
    requires places > 0
    ensures var s := Fixed(n, places);
      && |s| > places && s[|s| - places - 1] == '.'
      && s[..|s| - places - 1] == NatToString(n / Pow10(places))
      && AllDigits(s[|s| - places..])
      && DigitsValue(s[|s| - places..]) == n % Pow10(places)
      && DigitsValue(s[..|s| - places - 1]) * Pow10(places) + DigitsValue(s[|s| - places..]) == n
  {
    var q := Pow10(places);
    DivModNat(n, q);
    var w := NatToString(n / q);
    var d := NatToString(n % q);
    NatToStringFits(n % q, places);
    ZeroPadKeepsValue(d, places);
    var f := PadStart(d, places, '0');
    assert |f| == places;
    var s := Fixed(n, places);
    assert s == w + "." + f;
    assert s[|s| - places..] == f;
    assert s[..|s| - places - 1] == w;
    assert (n / q) * q + n % q == n;
  }

  /** `String(n).padStart(2, '0')`. */
  function Pad2(n: nat): string
  {
    PadStart(NatToString(n), 2, '0')
  }

  /** The race id `${date}-${pad2(venueCode)}-${pad2(raceNo)}`. */
  function RaceId(date: string, venueCode: nat, raceNo: nat): string
  {
    date + "-" + Pad2(venueCode) + "-" + Pad2(raceNo)
  }

  // ---------------------------------------------------------------- players

  /** The player made from the racer in the idx-th place of races.json. */
  function PlayerOf(r: Racer, aiScore: int): (p: Player)
    ensures p.number == r.lane && p.name == r.name && p.grade == r.grade
    ensures p.winRate == r.globalWinRate && p.localWinRate == r.localWinRate
    ensures p.motor2Rate == r.motor2Rate && p.aiScore == aiScore
  {
    Player(r.lane, r.name, r.grade, r.age, r.globalWinRate, r.localWinRate,
           r.motorNumber, r.motor2Rate, r.boatNumber, r.boat2Rate, aiScore)
  }

  /** The comparator `(a, b) => b.aiScore - a.aiScore`: higher score first. */
  predicate ScoreFirst(a: Player, b: Player)
  {
    a.aiScore > b.aiScore
  }

  function AiScore(p: Player): int
  {
    p.aiScore
  }

  /** The players in races.json order; `score(racer, idx)` is calculateAIScore. */
  function Unsorted(racers: seq<Racer>, score: (Racer, nat) -> int): (ps: seq<Player>)
    ensures |ps| == |racers|
    ensures forall i :: 0 <= i < |racers| ==> ps[i] == PlayerOf(racers[i], score(racers[i], i))
  {
    seq(|racers|, i requires 0 <= i < |racers| => PlayerOf(racers[i], score(racers[i], i)))
  }

  /** generatePlayers: the racers' players sorted by AI score; with no racers,
      the drawn dummy players sorted the same way. */
  function Players(racers: seq<Racer>, score: (Racer, nat) -> int, dummy: seq<Player>): seq<Player>
  {
    if racers == [] then Sort(dummy, ScoreFirst) else Sort(Unsorted(racers, score), ScoreFirst)
  }

  /** The real-data players are the racers' players, by non-increasing AI
      score, equal scores kept in races.json order; each number is a lane. */
  lemma PlayersSpec(racers: seq<Racer>, score: (Racer, nat) -> int, dummy: seq<Player>, z: Player)
    requires racers != []
    ensures var ps := Players(racers, score, dummy);
      && multiset(ps) == multiset(Unsorted(racers, score))
      && (forall i, j :: 0 <= i < j < |ps| ==> ps[i].aiScore >= ps[j].aiScore)
      && Filter(ps, y => Equiv(ScoreFirst, y, z)) == Filter(Unsorted(racers, score), y => Equiv(ScoreFirst, y, z))
      && (forall p :: p in ps ==> exists i :: 0 <= i < |racers| && p.number == racers[i].lane)
  {
    var u := Unsorted(racers, score);
    assert Players(racers, score, dummy) == Sort(u, ScoreFirst);
    ScoreSortSpec(u, z);
    UnsortedLanes(racers, score, Sort(u, ScoreFirst));
  }

  /** Sorting by AI score keeps the players, orders them by non-increasing
      score, and keeps players of equal score in their order. */
  lemma ScoreSortSpec(u: seq<Player>, z: Player)
    ensures multiset(Sort(u, ScoreFirst)) == multiset(u)
    ensures forall i, j :: 0 <= i < j < |Sort(u, ScoreFirst)| ==> Sort(u, ScoreFirst)[i].aiScore >= Sort(u, ScoreFirst)[j].aiScore
    ensures Filter(Sort(u, ScoreFirst), y => Equiv(ScoreFirst, y, z)) == Filter(u, y => Equiv(ScoreFirst, y, z))
  {
    KeyDescIsStrictWeak(ScoreFirst, AiScore);
    SortSorted(u, ScoreFirst);
    SortStable(u, z, ScoreFirst);
  }

  /** A list holding the racers' players numbers each by some racer's lane. */
  lemma UnsortedLanes(racers: seq<Racer>, score: (Racer, nat) -> int, ps: seq<Player>)
    requires multiset(ps) == multiset(Unsorted(racers, score))
    ensures forall p :: p in ps ==> exists i :: 0 <= i < |racers| && p.number == racers[i].lane
  {
    var u := Unsorted(racers, score);
    forall p | p in ps ensures exists i :: 0 <= i < |racers| && p.number == racers[i].lane {
      assert p in multiset(ps);
      var i :| 0 <= i < |u| && u[i] == p;
      assert p.number == racers[i].lane;
    }
  }

  // ---------------------------------------------------------------- insights

  /** The four kinds of insight, in the order they are pushed. */
  datatype Insight =
    | LocalBest(player: Player)
    | GoodMotors(motors: seq<Player>)
    | TopRacers(racers: seq<Player>)
    | A1Racers(a1: seq<Player>)

  function Kind(i: Insight): nat
  {
    match i
    case LocalBest(_) => 0
    case GoodMotors(_) => 1
    case TopRacers(_) => 2
    case A1Racers(_) => 3
  }

  /** `(a, b) => parseFloat(b.localWinRate) - parseFloat(a.localWinRate)`. */
  predicate LocalFirst(a: Player, b: Player)
  {
    a.localWinRate > b.localWinRate
  }

  function LocalWinRate(p: Player): int
  {
    p.localWinRate
  }

  /** `[...players].sort(byLocalWinRate)[0]`: undefined when there are no players. */
  function TopLocal(players: seq<Player>): Option<Player>
  {
    if players == [] then None else Some(Sort(players, LocalFirst)[0])
  }

  /** Motor 2-rate strictly above 40%. */
  predicate GoodMotor(p: Player)
  {
    p.motor2Rate > 400
  }

  /** National win rate 7.0 or more. */
  predicate Strong(p: Player)
  {
    p.winRate >= 700
  }

  predicate IsA1(p: Player)
  {
    p.grade == "A1"
  }

  function IfAny(ps: seq<Player>, make: seq<Player> -> Insight): seq<Insight>
  {
    if ps != [] then [make(ps)] else []
  }

  /** The best-local-win-rate insight, when that rate is positive. */
  function LocalPart(players: seq<Player>): seq<Insight>
  {
    match TopLocal(players)
    case None => []
    case Some(t) => if t.localWinRate > 0 then [LocalBest(t)] else []
  }

  /** generateInsights. */
  function Insights(players: seq<Player>): seq<Insight>
  {
    LocalPart(players)
    + IfAny(Filter(players, GoodMotor), ps => GoodMotors(ps))
    + IfAny(Filter(players, Strong), ps => TopRacers(ps))
    + IfAny(Filter(players, IsA1), ps => A1Racers(ps))
  }

  lemma FilterHead<T>(xs: seq<T>, p: T -> bool) returns (k: nat)
    requires Filter(xs, p) != []
    ensures k < |xs| && p(xs[k]) && Filter(xs, p)[0] == xs[k]
    ensures forall i :: 0 <= i < k ==> !p(xs[i])
  {
    if p(xs[0]) {
      k := 0;
    } else {
      var k' := FilterHead(xs[1..], p);
      k := k' + 1;
    }
  }

  /** players[k] has the highest local win rate and every earlier player a lower one. */
  predicate FirstMaxAt(players: seq<Player>, k: int)
  {
    && 0 <= k < |players|
    && (forall i :: 0 <= i < |players| ==> players[i].localWinRate <= players[k].localWinRate)
    && (forall i :: 0 <= i < k ==> players[i].localWinRate < players[k].localWinRate)
  }

  lemma SortHeadIsMax(players: seq<Player>)
    requires players != []
    ensures forall i :: 0 <= i < |players| ==> players[i].localWinRate <= Sort(players, LocalFirst)[0].localWinRate
  {
    var s := Sort(players, LocalFirst);
    KeyDescIsStrictWeak(LocalFirst, LocalWinRate);
    SortSorted(players, LocalFirst);
    forall i | 0 <= i < |players| ensures players[i].localWinRate <= s[0].localWinRate {
      assert players[i] in multiset(s);
      var j :| 0 <= j < |s| && s[j] == players[i];
      assert j == 0 || !LocalFirst(s[j], s[0]);
    }
  }

  lemma SortHeadIsFirst(players: seq<Player>) returns (k: nat)
    requires players != []
    ensures k < |players| && players[k] == Sort(players, LocalFirst)[0]
    ensures forall i :: 0 <= i < k ==> !Equiv(LocalFirst, players[i], players[k])
  {
    var s := Sort(players, LocalFirst);
    var t := s[0];
    KeyDescIsStrictWeak(LocalFirst, LocalWinRate);
    SortStable(players, t, LocalFirst);
    var e := y => Equiv(LocalFirst, y, t);
    assert Filter(s, e) != [] && Filter(s, e)[0] == t by {
      assert s == [t] + s[1..];
    }
    k := FilterHead(players, e);
  }

  /** The best local win rate is the first player holding the maximum. */
  lemma TopLocalSpec(players: seq<Player>)
    requires players != []
    ensures TopLocal(players).Some?
    ensures exists k :: FirstMaxAt(players, k) && players[k] == TopLocal(players).value
  {
    SortHeadIsMax(players);
    var k := SortHeadIsFirst(players);
    assert FirstMaxAt(players, k);
  }

  /** Kinds strictly increase along the sequence. */
  predicate Ascending(ins: seq<Insight>)
  {
    forall i, j :: 0 <= i < j < |ins| ==> Kind(ins[i]) < Kind(ins[j])
  }

  lemma AscendingAppend(a: seq<Insight>, b: seq<Insight>)
    requires Ascending(a) && Ascending(b)
    requires forall x, y :: x in a && y in b ==> Kind(x) < Kind(y)
    ensures Ascending(a + b)
  {
    forall i, j | 0 <= i < j < |a + b| ensures Kind((a + b)[i]) < Kind((a + b)[j]) {
      if j >= |a| && i < |a| {
        assert (a + b)[i] in a && (a + b)[j] in b;
      }
    }
  }

  /** At most four insights, one of each kind, in the fixed order. */
  lemma InsightsOrder(players: seq<Player>)
    ensures |Insights(players)| <= 4
    ensures Ascending(Insights(players))
  {
    var a := LocalPart(players);
    var b := IfAny(Filter(players, GoodMotor), ps => GoodMotors(ps));
    var c := IfAny(Filter(players, Strong), ps => TopRacers(ps));
    var d := IfAny(Filter(players, IsA1), ps => A1Racers(ps));
    assert forall x :: x in a ==> Kind(x) == 0;
    assert forall x :: x in b ==> Kind(x) == 1;
    assert forall x :: x in c ==> Kind(x) == 2;
    assert forall x :: x in d ==> Kind(x) == 3;
    AscendingAppend(a, b);
    AscendingAppend(a + b, c);
    AscendingAppend(a + b + c, d);
  }

  /** The local-best insight appears exactly when the best local win rate is positive. */
  lemma InsightsLocal(players: seq<Player>)
    ensures (exists t :: LocalBest(t) in Insights(players))
        <==> players != [] && TopLocal(players).value.localWinRate > 0
  {
    if players != [] && TopLocal(players).value.localWinRate > 0 {
      assert LocalBest(TopLocal(players).value) in LocalPart(players);
    }
  }

  /** The good-motor insight appears exactly when some motor 2-rate is above
      40%, and then holds exactly those players, in order. */
  lemma InsightsMotors(players: seq<Player>)
    ensures forall ps :: GoodMotors(ps) in Insights(players) <==> ps == Filter(players, GoodMotor) && ps != []
  {
    var a := LocalPart(players);
    var b := IfAny(Filter(players, GoodMotor), ps => GoodMotors(ps));
    var c := IfAny(Filter(players, Strong), ps => TopRacers(ps));
    var d := IfAny(Filter(players, IsA1), ps => A1Racers(ps));
    assert forall x: Insight :: x in a + c + d ==> !x.GoodMotors?;
    assert forall x: Insight :: x in Insights(players) <==> x in b || x in a + c + d;
  }

  /** The strong-racer insight appears exactly when some national win rate is
      7.0 or more, and then holds exactly those players, in order. */
  lemma InsightsStrong(players: seq<Player>)
    ensures forall ps :: TopRacers(ps) in Insights(players) <==> ps == Filter(players, Strong) && ps != []
  {
    var a := LocalPart(players);
    var b := IfAny(Filter(players, GoodMotor), ps => GoodMotors(ps));
    var c := IfAny(Filter(players, Strong), ps => TopRacers(ps));
    var d := IfAny(Filter(players, IsA1), ps => A1Racers(ps));
    assert forall x: Insight :: x in a + b + d ==> !x.TopRacers?;
    assert forall x: Insight :: x in Insights(players) <==> x in c || x in a + b + d;
  }

  /** The A1 insight appears exactly when some racer is graded A1, and then
      holds exactly those players, in order. */
  lemma InsightsA1(players: seq<Player>)
    ensures forall ps :: A1Racers(ps) in Insights(players) <==> ps == Filter(players, IsA1) && ps != []
  {
    var a := LocalPart(players);
    var b := IfAny(Filter(players, GoodMotor), ps => GoodMotors(ps));
    var c := IfAny(Filter(players, Strong), ps => TopRacers(ps));
    var d := IfAny(Filter(players, IsA1), ps => A1Racers(ps));
    assert forall x: Insight :: x in a + b + c ==> !x.A1Racers?;
    assert forall x: Insight :: x in Insights(players) <==> x in d || x in a + b + c;
  }

  /** The text of one insight, as pushed into `reasoning`. */
  function Text(i: Insight): string
  {
    match i
    case LocalBest(p) =>
      IntToString(p.number) + "号艇の" + p.name + "選手は"
      + "当レース場での勝率が" + Fixed(p.localWinRate, 2) + "と最も高い"
    case GoodMotors(ps) =>
      Join(seq(|ps|, k requires 0 <= k < |ps| => IntToString(ps[k].number) + "号艇（" + Fixed(ps[k].motor2Rate, 1) + "%）"), "、")
      + "のモーターは2連率が高く好調"
    case TopRacers(ps) =>
      Join(seq(|ps|, k requires 0 <= k < |ps| => IntToString(ps[k].number) + "号艇（勝率" + Fixed(ps[k].winRate, 2) + "）"), "、")
      + "は全国勝率が高い実力者"
    case A1Racers(ps) =>
      Join(seq(|ps|, k requires 0 <= k < |ps| => IntToString(ps[k].number) + "号艇（" + ps[k].name + "）"), "、")
      + "はA1級の最高位選手"
  }

  const Fallback: seq<string> := ["選手データを総合的に分析しました", "AIスコアに基づいた予想です"]

  /** `reasoning`: the insight texts, or the two fixed sentences when there are none. */
  function Reasoning(players: seq<Player>): (r: seq<string>)
    ensures Insights(players) != [] ==> |r| == |Insights(players)|
    ensures Insights(players) != [] ==> forall k :: 0 <= k < |r| ==> r[k] == Text(Insights(players)[k])
    ensures Insights(players) == [] ==> r == Fallback
  {
    var ins := Insights(players);
    if ins != [] then seq(|ins|, k requires 0 <= k < |ins| => Text(ins[k])) else Fallback
  }

  /** Reasoning is never empty and has at most four lines. */
  lemma ReasoningBounds(players: seq<Player>)
    ensures 1 <= |Reasoning(players)| <= 4
  {
    InsightsOrder(players);
  }

  // ---------------------------------------------------------------- prediction

  function RMax(a: real, b: real): real
  {
    if a >= b then a else b
  }

  function RMin(a: real, b: real): real
  {
    if a <= b then a else b
  }

  /** `Math.floor(Math.min(95, Math.max(65, 70 + scoreDiff / 2)))`. */
  function Confidence(scoreDiff: int): (c: int)
    ensures 65 <= c <= 95
  {
    RMin(95.0, RMax(65.0, 70.0 + scoreDiff as real / 2.0)).Floor
  }

  /** A non-negative score gap gives 70 plus half the gap, rounded down, capped
      at 95: the floor of 65 is never reached. */
  lemma ConfidenceOfGap(scoreDiff: int)
    requires scoreDiff >= 0
    ensures 70 <= Confidence(scoreDiff) <= 95
    ensures scoreDiff <= 50 ==> Confidence(scoreDiff) == 70 + scoreDiff / 2
    ensures scoreDiff >= 50 ==> Confidence(scoreDiff) == 95
  {
    var q := scoreDiff / 2;
    var x := 70.0 + scoreDiff as real / 2.0;
    assert scoreDiff == 2 * q + scoreDiff % 2;
    assert (70 + q) as real <= x < (70 + q + 1) as real;
    if scoreDiff <= 50 {
      assert RMin(95.0, RMax(65.0, x)) == x;
    }
  }

  function Numbers(ps: seq<Player>): (ns: seq<int>)
    ensures |ns| == |ps| && forall k :: 0 <= k < |ps| ==> ns[k] == ps[k].number
  {
    seq(|ps|, k requires 0 <= k < |ps| => ps[k].number)
  }

  /** `players.slice(0, 3)`. */
  function Top3(players: seq<Player>): seq<Player>
  {
    if |players| < 3 then players else players[..3]
  }

  /** The `prediction` object built from the sorted players. */
  function PredictionOf(players: seq<Player>): Prediction
    requires |players| >= 2
  {
    Prediction(players[0].number, Numbers(Top3(players)),
               Confidence(players[0].aiScore - players[1].aiScore),
               players, Reasoning(players))
  }

  /** generateRacePrediction; None where `players[1]` is missing and the
      script throws. */
  function RacePredictionOf(race: RaceInput, venueCode: nat, venueName: string,
                            score: (Racer, nat) -> int, dummy: seq<Player>): Option<RacePrediction>
  {
    var players := Players(race.racers, score, dummy);
    if |players| < 2 then None
    else
      Some(RacePrediction(
        RaceId(race.date, venueCode, race.raceNo),
        venueName, venueCode, race.raceNo,
        if race.startTime == "" then "未定" else race.startTime,
        PredictionOf(players), Pending, Unscored))
  }

  /** The prediction names the first player as its pick and the first three
      players, in order, as its top three. */
  lemma PredictionPicks(players: seq<Player>)
    requires |players| >= 2
    ensures PredictionOf(players).topPick == players[0].number
    ensures |PredictionOf(players).top3| == (if |players| < 3 then |players| else 3)
    ensures forall k :: 0 <= k < |PredictionOf(players).top3| ==> PredictionOf(players).top3[k] == players[k].number
  {
  }

  /** Sorted players give a confidence in 70..95. */
  lemma PredictionConfidence(players: seq<Player>)
    requires |players| >= 2
    requires forall i, j :: 0 <= i < j < |players| ==> !ScoreFirst(players[j], players[i])
    ensures 70 <= PredictionOf(players).confidence <= 95
  {
    assert !ScoreFirst(players[1], players[0]);
    ConfidenceOfGap(players[0].aiScore - players[1].aiScore);
  }

  /** A prediction exists exactly when there are two players; it carries the
      race id and the start time (`'未定'` when missing), a pending result
      and null accuracy. */
  lemma RacePredictionRecord(race: RaceInput, venueCode: nat, venueName: string,
                             score: (Racer, nat) -> int, dummy: seq<Player>)
    ensures RacePredictionOf(race, venueCode, venueName, score, dummy).Some?
        <==> |Players(race.racers, score, dummy)| >= 2
    ensures |race.racers| == 1 ==> RacePredictionOf(race, venueCode, venueName, score, dummy).None?
    ensures RacePredictionOf(race, venueCode, venueName, score, dummy).Some? ==>
      RacePredictionOf(race, venueCode, venueName, score, dummy).value.raceId == RaceId(race.date, venueCode, race.raceNo)
    ensures RacePredictionOf(race, venueCode, venueName, score, dummy).Some? ==>
      RacePredictionOf(race, venueCode, venueName, score, dummy).value.startTime != ""
    ensures RacePredictionOf(race, venueCode, venueName, score, dummy).Some? ==>
      RacePredictionOf(race, venueCode, venueName, score, dummy).value.result == Pending
    ensures RacePredictionOf(race, venueCode, venueName, score, dummy).Some? ==>
      RacePredictionOf(race, venueCode, venueName, score, dummy).value.accuracy == Unscored
  {
    if |race.racers| == 1 {
      assert |Unsorted(race.racers, score)| == 1;
    }
  }

  /** The players of any race are sorted, so every prediction has a
      confidence in 70..95 and is not yet finished. */
  lemma RacePredictionConfidence(race: RaceInput, venueCode: nat, venueName: string,
                                 score: (Racer, nat) -> int, dummy: seq<Player>)
    requires RacePredictionOf(race, venueCode, venueName, score, dummy).Some?
    ensures 70 <= RacePredictionOf(race, venueCode, venueName, score, dummy).value.prediction.confidence <= 95
    ensures !IsFinished(Some(RacePredictionOf(race, venueCode, venueName, score, dummy).value.result))
  {
    var ps := Players(race.racers, score, dummy);
    KeyDescIsStrictWeak(ScoreFirst, AiScore);
    if race.racers == [] {
      SortSorted(dummy, ScoreFirst);
    } else {
      SortSorted(Unsorted(race.racers, score), ScoreFirst);
    }
    PredictionConfidence(ps);
  }

  // ---------------------------------------------------------------- all venues

  /** The predictions of a venue's races, in order; None once one throws. */
  function VenuePredictions(v: VenueInput, races: seq<RaceInput>, score: (Racer, nat) -> int, dummy: seq<Player>)
    : Option<seq<RacePrediction>>
  {
    if races == [] then Some([])
    else
      match VenuePredictions(v, races[..|races| - 1], score, dummy)
      case None => None
      case Some(ps) =>
        match RacePredictionOf(races[|races| - 1], v.placeCd, v.placeName, score, dummy)
        case None => None
        case Some(p) => Some(ps + [p])
  }

  /** The predictions of all venues' races, venue after venue. */
  function AllPredictions(vs: seq<VenueInput>, score: (Racer, nat) -> int, dummy: seq<Player>)
    : Option<seq<RacePrediction>>
  {
    if vs == [] then Some([])
    else
      match AllPredictions(vs[..|vs| - 1], score, dummy)
      case None => None
      case Some(ps) =>
        match VenuePredictions(vs[|vs| - 1], vs[|vs| - 1].races, score, dummy)
        case None => None
        case Some(qs) => Some(ps + qs)
  }

  /** The number of races over all venues. */
  function RaceCount(vs: seq<VenueInput>): nat
  {
    if vs == [] then 0 else RaceCount(vs[..|vs| - 1]) + |vs[|vs| - 1].races|
  }

  lemma {:induction false} VenuePredictionsLength(v: VenueInput, races: seq<RaceInput>, score: (Racer, nat) -> int, dummy: seq<Player>)
    requires VenuePredictions(v, races, score, dummy).Some?
    ensures |VenuePredictions(v, races, score, dummy).value| == |races|
    decreases |races|
  {
    if races != [] {
      VenuePredictionsLength(v, races[..|races| - 1], score, dummy);
    }
  }

  /** One prediction per race: venues without races add none, so the total is
      the sum of the venues' race counts. */
  lemma {:induction false} AllPredictionsLength(vs: seq<VenueInput>, score: (Racer, nat) -> int, dummy: seq<Player>)
    requires AllPredictions(vs, score, dummy).Some?
    ensures |AllPredictions(vs, score, dummy).value| == RaceCount(vs)
    decreases |vs|
  {
    if vs != [] {
      AllPredictionsLength(vs[..|vs| - 1], score, dummy);
      VenuePredictionsLength(vs[|vs| - 1], vs[|vs| - 1].races, score, dummy);
    }
  }

  lemma {:induction false} VenueNoneStaysNone(v: VenueInput, j: nat, score: (Racer, nat) -> int, dummy: seq<Player>)
    requires j <= |v.races| && VenuePredictions(v, v.races[..j], score, dummy).None?
    ensures VenuePredictions(v, v.races, score, dummy).None?
    decreases |v.races| - j
  {
    if j < |v.races| {
      assert v.races[..j + 1][..j] == v.races[..j];
      VenueNoneStaysNone(v, j + 1, score, dummy);
    } else {
      assert v.races[..j] == v.races;
    }
  }

  /** One more race extends the venue's predictions by that race's prediction. */
  lemma VenueStep(v: VenueInput, j: nat, score: (Racer, nat) -> int, dummy: seq<Player>)
    requires j < |v.races|
    ensures VenuePredictions(v, v.races[..j + 1], score, dummy) ==
      match VenuePredictions(v, v.races[..j], score, dummy)
      case None => None
      case Some(ps) =>
        match RacePredictionOf(v.races[j], v.placeCd, v.placeName, score, dummy)
        case None => None
        case Some(p) => Some(ps + [p])
  {
    var races := v.races[..j + 1];
    assert races[..|races| - 1] == v.races[..j];
    assert races[|races| - 1] == v.races[j];
  }

  /** One venue's loop: pushes each race's prediction. */
  method PredictVenue(v: VenueInput, score: (Racer, nat) -> int, dummy: seq<Player>)
    returns (out: Option<seq<RacePrediction>>)
    ensures out == VenuePredictions(v, v.races, score, dummy)
  {
    var acc: seq<RacePrediction> := [];
    var j := 0;
    while j < |v.races|
      invariant 0 <= j <= |v.races|
      invariant VenuePredictions(v, v.races[..j], score, dummy) == Some(acc)
    {
      var p := RacePredictionOf(v.races[j], v.placeCd, v.placeName, score, dummy);
      VenueStep(v, j, score, dummy);
      if p.None? {
        VenueNoneStaysNone(v, j + 1, score, dummy);
        return None;
      }
      acc := acc + [p.value];
      j := j + 1;
    }
    assert v.races[..j] == v.races;
    return Some(acc);
  }

  lemma {:induction false} NoneStaysNone(vs: seq<VenueInput>, i: nat, score: (Racer, nat) -> int, dummy: seq<Player>)
    requires i <= |vs| && AllPredictions(vs[..i], score, dummy).None?
    ensures AllPredictions(vs, score, dummy).None?
    decreases |vs| - i
  {
    if i < |vs| {
      assert vs[..i + 1][..i] == vs[..i];
      NoneStaysNone(vs, i + 1, score, dummy);
    } else {
      assert vs[..i] == vs;
    }
  }

  /** main: fails unless races.json is well formed; otherwise predicts every
      race of every venue with races, counting them. */
  method GeneratePredictions(success: bool, data: Option<seq<VenueInput>>,
                             score: (Racer, nat) -> int, dummy: seq<Player>)
    returns (allRaces: Option<seq<RacePrediction>>, totalRaces: nat)
    ensures !success || data.None? ==> allRaces.None?
    ensures success && data.Some? ==> allRaces == AllPredictions(data.value, score, dummy)
    ensures allRaces.Some? ==> totalRaces == |allRaces.value| == RaceCount(data.value)
  {
    totalRaces := 0;
    if !success || data.None? {
      return None, 0;
    }
    var vs := data.value;
    var acc: seq<RacePrediction> := [];
    var i := 0;
    while i < |vs|
      invariant 0 <= i <= |vs|
      invariant AllPredictions(vs[..i], score, dummy) == Some(acc)
      invariant totalRaces == |acc|
    {
      assert vs[..i + 1][..i] == vs[..i];
      if |vs[i].races| > 0 {
        var out := PredictVenue(vs[i], score, dummy);
        if out.None? {
          NoneStaysNone(vs, i + 1, score, dummy);
          return None, totalRaces;
        }
        VenuePredictionsLength(vs[i], vs[i].races, score, dummy);
        acc := acc + out.value;
        totalRaces := totalRaces + |out.value|;
      } else {
        assert vs[i].races == [];
        assert acc + [] == acc;
      }
      i := i + 1;
    }
    assert vs[..i] == vs;
    AllPredictionsLength(vs, score, dummy);
    return Some(acc), totalRaces;
  }
}
