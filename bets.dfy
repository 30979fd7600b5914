/**
 * The bet judgement shared by scripts/calculate-accuracy.js,
 * src/components/HitRaces.jsx, src/pages/RaceDetail.jsx and
 * src/pages/RaceHistory.jsx: the four bet types a prediction can hit, the keys
 * under which their payouts are stored, and the payout lookup.
 */
module Bets {
  import opened Wrappers
  import opened Strings

  // ---------------------------------------------------------------- records

  /** The payout tables of a race, keyed by combination string (`"3"`, `"1-2-5"`). */
  datatype Payouts = Payouts(
    win: map<string, int>,
    place: map<string, int>,
    trifecta: map<string, int>,
    trio: map<string, int>)

  /** A race result: pending (`finished: false` and null ranks, as a new
      prediction carries it) or final, with the first three boats and the payouts. */
  datatype Result = Pending | Final(rank1: int, rank2: int, rank3: int, payouts: Option<Payouts>)

  /** The accuracy record of a race: `null` (None) until the race is scored. */
  datatype Accuracy = Accuracy(topPickHit: Option<bool>, top3Hit: Option<bool>, top3Included: Option<bool>)

  /** The accuracy of a race not yet judged: all three fields null. */
  const Unscored: Accuracy := Accuracy(None, None, None)

  /** What a prediction names: the pick for first place and the top three. */
  datatype Pick = Pick(topPick: int, top3: seq<int>)

  /** The four bet types: 単勝 (win), 複勝 (place), 3連複 (any order, stored as
      `trifecta`) and 3連単 (exact order, stored as `trio`). */
  datatype Bet = Win | Place | Trifecta | Trio

  /** The three prediction models of the multi-model files. */
  datatype ModelKey = Standard | SafeBet | UpsetFocus

  /** One race of a day's prediction file: its id (`2025-10-14-01-05`), venue
      name and code, race number, the single-model prediction, the per-model
      predictions (absent ones left out of the map) and the result, if any. */
  datatype Race = Race(
    raceId: string,
    venue: string,
    venueCode: int,
    raceNumber: int,
    prediction: Pick,
    predictions: map<ModelKey, Pick>,
    result: Option<Result>)

  /** The bet types in the order every screen lists them. */
  const AllBets: seq<Bet> := [Win, Place, Trifecta, Trio]

  /** `result?.finished`: a result exists and is final. */
  predicate IsFinished(result: Option<Result>)
  {
    result.Some? && result.value.Final?
  }

  // ---------------------------------------------------------------- hits

  /** `top3[k] === rank`: false when top3 has no k-th entry. */
  predicate At(top3: seq<int>, k: nat, rank: int)
  {
    k < |top3| && top3[k] == rank
  }

  /** Whether the prediction hits the given bet type on this result; nothing
      hits a pending result, whose null ranks equal no boat number. */
  predicate Hit(p: Pick, r: Result, bet: Bet)
  {
    r.Final? &&
    match bet
    case Win => p.topPick == r.rank1
    case Place => p.topPick == r.rank1 || p.topPick == r.rank2
    case Trifecta => r.rank1 in p.top3 && r.rank2 in p.top3 && r.rank3 in p.top3
    case Trio => At(p.top3, 0, r.rank1) && At(p.top3, 1, r.rank2) && At(p.top3, 2, r.rank3)
  }

  /** A win is also a place. */
  lemma WinImpliesPlace(p: Pick, r: Result)
    requires Hit(p, r, Win)
    ensures Hit(p, r, Place)
  {
  }

  /** An exact-order hit is also an any-order hit. */
  lemma TrioImpliesTrifecta(p: Pick, r: Result)
    requires Hit(p, r, Trio)
    ensures Hit(p, r, Trifecta)
  {
    assert p.top3[0] in p.top3 && p.top3[1] in p.top3 && p.top3[2] in p.top3;
  }

  /** The any-order hit only depends on which boats finished in the top three. */
  lemma TrifectaIgnoresOrder(p: Pick, r: Result, s: Result)
    requires r.Final? && s.Final?
    requires multiset{r.rank1, r.rank2, r.rank3} == multiset{s.rank1, s.rank2, s.rank3}
    ensures Hit(p, r, Trifecta) <==> Hit(p, s, Trifecta)
  {
    var m := multiset{r.rank1, r.rank2, r.rank3};
    assert r.rank1 in m && r.rank2 in m && r.rank3 in m;
    assert s.rank1 in m && s.rank2 in m && s.rank3 in m;
  }

  /** The bet types the prediction hits, pushed in the order 単勝, 複勝, 3連複, 3連単. */
  function Hits(p: Pick, r: Result): seq<Bet>
  {
    (if Hit(p, r, Win) then [Win] else [])
    + (if Hit(p, r, Place) then [Place] else [])
    + (if Hit(p, r, Trifecta) then [Trifecta] else [])
    + (if Hit(p, r, Trio) then [Trio] else [])
  }

  /** Position of a bet type in the fixed order. */
  function Rank(b: Bet): nat
  {
    match b
    case Win => 0
    case Place => 1
    case Trifecta => 2
    case Trio => 3
  }

  /** The hit list holds exactly the bet types that hit, each once, in the fixed order. */
  lemma HitsSpec(p: Pick, r: Result)
    ensures forall b :: b in Hits(p, r) <==> Hit(p, r, b)
    ensures forall i, j :: 0 <= i < j < |Hits(p, r)| ==> Rank(Hits(p, r)[i]) < Rank(Hits(p, r)[j])
  {
    var h := Hits(p, r);
    assert forall b :: b in h <==> Hit(p, r, b) by {
      forall b ensures b in h <==> Hit(p, r, b) {
        match b
        case Win =>
        case Place =>
        case Trifecta =>
        case Trio =>
      }
    }
  }

  /** Nothing hits exactly when the hit list is empty. */
  lemma HitsEmpty(p: Pick, r: Result)
    ensures Hits(p, r) == [] <==> forall b :: !Hit(p, r, b)
  {
    HitsSpec(p, r);
  }

  // ---------------------------------------------------------------- keys

  /** `[a, b, c].sort((x, y) => x - y)`: ascending. */
  function Sort3(a: int, b: int, c: int): (r: seq<int>)
    ensures |r| == 3 && r[0] <= r[1] <= r[2]
  {
    if a <= b then
      if b <= c then [a, b, c] else if a <= c then [a, c, b] else [c, a, b]
    else
      if a <= c then [b, a, c] else if b <= c then [b, c, a] else [c, b, a]
  }

  /** Sorting three numbers only reorders them. */
  lemma Sort3IsPermutation(a: int, b: int, c: int)
    ensures multiset(Sort3(a, b, c)) == multiset{a, b, c}
  {
    var r := Sort3(a, b, c);
    assert r == [r[0], r[1], r[2]];
    assert multiset(r) == multiset{r[0], r[1], r[2]};
  }

  /** Three numbers joined by `-`: `${x}-${y}-${z}`, or `[x, y, z].join('-')`. */
  function Dashed(x: int, y: int, z: int): string
  {
    IntToString(x) + "-" + IntToString(y) + "-" + IntToString(z)
  }

  /** The 3連複 key: the three boats in ascending order. */
  function TrifectaKey(r: Result): string
    requires r.Final?
  {
    var s := Sort3(r.rank1, r.rank2, r.rank3);
    Dashed(s[0], s[1], s[2])
  }

  /** The 3連単 key: the three boats in finishing order. */
  function TrioKey(r: Result): string
    requires r.Final?
  {
    Dashed(r.rank1, r.rank2, r.rank3)
  }

  /** The key of the bet's payout table the prediction's ticket is stored under. */
  function BetKey(p: Pick, r: Result, bet: Bet): string
    requires r.Final?
  {
    match bet
    case Win => IntToString(p.topPick)
    case Place => IntToString(p.topPick)
    case Trifecta => TrifectaKey(r)
    case Trio => TrioKey(r)
  }

  /** Sorting depends only on which three numbers are given. */
  lemma Sort3IgnoresOrder(a: int, b: int, c: int, d: int, e: int, f: int)
    requires multiset{a, b, c} == multiset{d, e, f}
    ensures Sort3(a, b, c) == Sort3(d, e, f)
  {
    var m := multiset{a, b, c};
    assert d in m && e in m && f in m;
    assert a in multiset{d, e, f} && b in multiset{d, e, f} && c in multiset{d, e, f};
  }

  /** The 3連複 key is the same for every finishing order of the same three boats. */
  lemma TrifectaKeyIgnoresOrder(r: Result, s: Result)
    requires r.Final? && s.Final?
    requires multiset{r.rank1, r.rank2, r.rank3} == multiset{s.rank1, s.rank2, s.rank3}
    ensures TrifectaKey(r) == TrifectaKey(s)
  {
    Sort3IgnoresOrder(r.rank1, r.rank2, r.rank3, s.rank1, s.rank2, s.rank3);
  }

  lemma JoinThree(a: string, b: string, c: string, sep: string)
    ensures Join([a, b, c], sep) == a + sep + b + sep + c
  {
    assert [a, b, c][1..] == [b, c] && [b, c][1..] == [c];
    assert Join([b, c], sep) == b + sep + c;
    assert Join([a, b, c], sep) == a + sep + (b + sep + c);
  }

  /** A dashed key of boat numbers splits back into the three numbers. */
  lemma DashedSplits(x: nat, y: nat, z: nat)
    ensures Split(Dashed(x, y, z), '-') == [NatToString(x), NatToString(y), NatToString(z)]
  {
    var xs := [NatToString(x), NatToString(y), NatToString(z)];
    NatToStringHasNoDash(x);
    NatToStringHasNoDash(y);
    NatToStringHasNoDash(z);
    JoinThree(xs[0], xs[1], xs[2], "-");
    SplitJoin(xs, '-');
  }

  /** Distinct finishing orders have distinct 3連単 keys. */
  lemma TrioKeyInjective(r: Result, s: Result)
    requires r.Final? && s.Final?
    requires r.rank1 >= 0 && r.rank2 >= 0 && r.rank3 >= 0
    requires s.rank1 >= 0 && s.rank2 >= 0 && s.rank3 >= 0
    requires TrioKey(r) == TrioKey(s)
    ensures r.rank1 == s.rank1 && r.rank2 == s.rank2 && r.rank3 == s.rank3
  {
    DashedSplits(r.rank1, r.rank2, r.rank3);
    DashedSplits(s.rank1, s.rank2, s.rank3);
    NatToStringInjective(r.rank1, s.rank1);
    NatToStringInjective(r.rank2, s.rank2);
    NatToStringInjective(r.rank3, s.rank3);
  }

  // ---------------------------------------------------------------- payouts

  /** The payout table of a bet type, absent when the result has no payouts. */
  function Table(r: Result, bet: Bet): Option<map<string, int>>
    requires r.Final?
  {
    match r.payouts
    case None => None
    case Some(t) =>
      Some(match bet
           case Win => t.win
           case Place => t.place
           case Trifecta => t.trifecta
           case Trio => t.trio)
  }

  /** `table?.[key] || 0`: the stored payout, or 0 when there is none. */
  function Lookup(table: Option<map<string, int>>, key: string): (v: int)
    ensures table.None? || key !in table.value ==> v == 0
    ensures table.Some? && key in table.value ==> v == table.value[key]
  {
    if table.Some? && key in table.value then table.value[key] else 0
  }

  /** The payout of the prediction's ticket for one bet type. */
  function BetPayout(p: Pick, r: Result, bet: Bet): int
    requires r.Final?
  {
    Lookup(Table(r, bet), BetKey(p, r, bet))
  }
}
