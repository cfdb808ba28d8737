/**
 * The condition scorer (`scoreConditions`): every catalogue entry is scored against the
 * tokens and the weather, entries scoring above zero are kept, stably sorted by descending
 * score, given a band relative to the top score, and cut to five.
 */
module Scoring {
  import opened Options
  import opened Inputs
  import opened Weather
  import opened Catalog
  import opened Results
  import opened StableSort

  /** The escalation text used when an entry has none. */
  const FallbackEscalation := "If symptoms worsen, seek medical care."

  /** The most entries the scorer returns. */
  const MaxResults := 5

  // ---------------------------------------------------------------------------
  // Scoring one entry

  /** The tokens of `list` that were reported, in list order. */
  function Matched(list: seq<Token>, tokens: set<Token>): (r: seq<Token>)
    ensures |r| <= |list|
  {
    if list == [] then []
    else
      var last := list[|list| - 1];
      Matched(list[..|list| - 1], tokens) + (if last in tokens then [last] else [])
  }

  /** A token is matched exactly when it is listed and was reported. */
  lemma {:induction false} MatchedMembers(list: seq<Token>, tokens: set<Token>)
    ensures forall t :: t in Matched(list, tokens) <==> t in list && t in tokens
  {
    if list != [] {
      var init, last := list[..|list| - 1], list[|list| - 1];
      MatchedMembers(init, tokens);
      assert list == init + [last];
    }
  }

  /** Whether the weather meets one environmental link. */
  predicate LinkHolds(link: WeatherLink, w: WeatherContext) {
    match link
    case AqiHigh => w.aqi == High
    case PollenHigh => w.pollen == High
    case HeatHigh => AnyAtLeast(w.dailyMax, 32.0)
    case ColdAir => AnyAtMost(w.dailyMin, 8.0)
  }

  /** `xs.some(v => v >= bound)`. */
  predicate AnyAtLeast(xs: seq<real>, bound: real) {
    exists i :: 0 <= i < |xs| && xs[i] >= bound
  }

  /** `xs.some(v => v <= bound)`. */
  predicate AnyAtMost(xs: seq<real>, bound: real) {
    exists i :: 0 <= i < |xs| && xs[i] <= bound
  }

  /** One point per declared link the weather meets; nothing without weather. */
  function WeatherBonus(links: seq<WeatherLink>, weather: Option<WeatherContext>): nat {
    match weather
    case None => 0
    case Some(w) => |MetLinks(links, w)|
  }

  /** +2 per matched key token, +1 per matched support token, -2 per matched exclude token, plus the weather bonus. */
  function ConditionScore(c: Condition, tokens: set<Token>, weather: Option<WeatherContext>): int {
    2 * |Matched(c.key, tokens)| + |Matched(c.support, tokens)| - 2 * |Matched(c.exclude, tokens)|
    + WeatherBonus(c.weatherLinks, weather)
  }

  /** The explanation: matched key tokens, then matched support tokens, each in catalogue order. */
  function Why(c: Condition, tokens: set<Token>): seq<Token> {
    Matched(c.key, tokens) + Matched(c.support, tokens)
  }

  /** The entry pushed for a condition, before its band is set. */
  function Entry(c: Condition, tokens: set<Token>, weather: Option<WeatherContext>): Scored {
    Scored(c.id, c.name, ConditionScore(c, tokens, weather), Why(c, tokens), c.advice, c.monitor,
           if c.escalate == "" then FallbackEscalation else c.escalate, None)
  }

  /** The links of `links` that the weather meets, as a set. */
  function MetLinks(links: seq<WeatherLink>, w: WeatherContext): set<WeatherLink> {
    set l | l in links && LinkHolds(l, w)
  }

  /** `s` with `l` added when `b` holds. */
  function AddIf(s: set<WeatherLink>, b: bool, l: WeatherLink): (r: set<WeatherLink>)
    requires l !in s
    ensures |r| == |s| + (if b then 1 else 0)
    ensures forall m :: m in r <==> m in s || (b && m == l)
  {
    if b then s + {l} else s
  }

  /** A set of links, one condition per possible link. */
  function LinkSet(aqi: bool, pollen: bool, heat: bool, cold: bool): (s: set<WeatherLink>)
    ensures |s| == (if aqi then 1 else 0) + (if pollen then 1 else 0)
                 + (if heat then 1 else 0) + (if cold then 1 else 0)
    ensures AqiHigh in s <==> aqi
    ensures PollenHigh in s <==> pollen
    ensures HeatHigh in s <==> heat
    ensures ColdAir in s <==> cold
  {
    AddIf(AddIf(AddIf(AddIf({}, aqi, AqiHigh), pollen, PollenHigh), heat, HeatHigh), cold, ColdAir)
  }

  lemma WeatherBonusUnfold(links: seq<WeatherLink>, w: WeatherContext)
    ensures WeatherBonus(links, Some(w))
        == (if AqiHigh in links && LinkHolds(AqiHigh, w) then 1 else 0)
         + (if PollenHigh in links && LinkHolds(PollenHigh, w) then 1 else 0)
         + (if HeatHigh in links && LinkHolds(HeatHigh, w) then 1 else 0)
         + (if ColdAir in links && LinkHolds(ColdAir, w) then 1 else 0)
  {
    MetLinksMember(links, w, AqiHigh);
    MetLinksMember(links, w, PollenHigh);
    MetLinksMember(links, w, HeatHigh);
    MetLinksMember(links, w, ColdAir);
    CountLinks(MetLinks(links, w),
      AqiHigh in links && LinkHolds(AqiHigh, w), PollenHigh in links && LinkHolds(PollenHigh, w),
      HeatHigh in links && LinkHolds(HeatHigh, w), ColdAir in links && LinkHolds(ColdAir, w));
  }

  /** A set of links has one element per link it holds. */
  lemma CountLinks(met: set<WeatherLink>, aqi: bool, pollen: bool, heat: bool, cold: bool)
    requires (AqiHigh in met <==> aqi) && (PollenHigh in met <==> pollen)
    requires (HeatHigh in met <==> heat) && (ColdAir in met <==> cold)
    ensures |met| == (if aqi then 1 else 0) + (if pollen then 1 else 0)
                   + (if heat then 1 else 0) + (if cold then 1 else 0)
  {
    var s := LinkSet(aqi, pollen, heat, cold);
    forall l ensures l in s <==> l in met {
      match l
      case AqiHigh =>
      case PollenHigh =>
      case HeatHigh =>
      case ColdAir =>
    }
    assert s == met;
  }

  lemma MetLinksMember(links: seq<WeatherLink>, w: WeatherContext, l: WeatherLink)
    ensures l in MetLinks(links, w) <==> l in links && LinkHolds(l, w)
  {
  }

  /** Scanning one more token of a list. */
  lemma MatchedStep(list: seq<Token>, i: nat, tokens: set<Token>)
    requires i < |list|
    ensures Matched(list[..i + 1], tokens)
        == Matched(list[..i], tokens) + (if list[i] in tokens then [list[i]] else [])
  {
    assert list[..i + 1][..i] == list[..i];
  }

  /** The body of the scoring loop for one catalogue entry. */
  method ScoreCondition(c: Condition, tokens: set<Token>, weather: Option<WeatherContext>)
    returns (score: int, why: seq<Token>)
    ensures score == ConditionScore(c, tokens, weather)
    ensures why == Why(c, tokens)
  {
    var keyPoints, keyMatched := ScanList(c.key, tokens, 2);
    var supportPoints, supportMatched := ScanList(c.support, tokens, 1);
    var excludePoints, _ := ScanList(c.exclude, tokens, -2);
    score := keyPoints + supportPoints + excludePoints;
    why := keyMatched + supportMatched;
    if |c.weatherLinks| > 0 && weather.Some? {
      var bonus := WeatherPoints(c.weatherLinks, weather.value);
      score := score + bonus;
    }
  }

  /** One token loop of the scorer: `weight` points, and the token noted, for each listed token present. */
  method ScanList(list: seq<Token>, tokens: set<Token>, weight: int) returns (points: int, matched: seq<Token>)
    ensures matched == Matched(list, tokens)
    ensures points == weight * |matched|
  {
    points, matched := 0, [];
    for i := 0 to |list|
      invariant matched == Matched(list[..i], tokens)
      invariant points == weight * |matched|
    {
      MatchedStep(list, i, tokens);
      if list[i] in tokens {
        points, matched := points + weight, matched + [list[i]];
      }
    }
    assert list[..|list|] == list;
  }

  /** The weather part of the scoring loop: one point per declared link the weather meets. */
  method WeatherPoints(links: seq<WeatherLink>, w: WeatherContext) returns (bonus: int)
    ensures bonus == WeatherBonus(links, Some(w))
  {
    bonus := 0;
    if AqiHigh in links && w.aqi == High {
      bonus := bonus + 1;
    }
    if PollenHigh in links && w.pollen == High {
      bonus := bonus + 1;
    }
    if HeatHigh in links && AnyAtLeast(w.dailyMax, 32.0) {
      bonus := bonus + 1;
    }
    if ColdAir in links && AnyAtMost(w.dailyMin, 8.0) {
      bonus := bonus + 1;
    }
    WeatherBonusUnfold(links, w);
  }

  // ---------------------------------------------------------------------------
  // Collecting, banding and cutting

  /** The entries of `cs` scoring above zero, in catalogue order. */
  function Candidates(cs: seq<Condition>, tokens: set<Token>, weather: Option<WeatherContext>): (r: seq<Scored>)
    ensures |r| <= |cs|
    ensures forall k :: 0 <= k < |r| ==> r[k].score > 0
  {
    if cs == [] then []
    else
      var e := Entry(cs[|cs| - 1], tokens, weather);
      Candidates(cs[..|cs| - 1], tokens, weather) + (if e.score > 0 then [e] else [])
  }

  /** `score/max >= 0.8` is higher, `>= 0.5` medium, otherwise lower; a zero `max` gives ratio 0. */
  function BandOf(score: int, max: int): Band {
    var ratio: real := if max == 0 then 0.0 else score as real / max as real;
    if ratio >= 0.8 then Higher else if ratio >= 0.5 then Medium else Lower
  }

  /** The score of the first entry, or 0 for an empty list. */
  function TopScore(s: seq<Scored>): int {
    if s == [] then 0 else s[0].score
  }

  /** Every entry given the band of its score relative to the first entry's. */
  function Banded(s: seq<Scored>): (r: seq<Scored>)
    ensures |r| == |s|
    ensures forall k :: 0 <= k < |s| ==> r[k] == s[k].(band := Some(BandOf(s[k].score, TopScore(s))))
  {
    seq(|s|, k requires 0 <= k < |s| => s[k].(band := Some(BandOf(s[k].score, TopScore(s)))))
  }

  /** The first `MaxResults` entries. */
  function Top(s: seq<Scored>): (r: seq<Scored>)
    ensures |r| <= MaxResults
  {
    if |s| <= MaxResults then s else s[..MaxResults]
  }

  /** What `scoreConditions` returns over a catalogue `cs`. */
  function RankingOf(cs: seq<Condition>, tokens: set<Token>, weather: Option<WeatherContext>): seq<Scored> {
    Top(Banded(SortedByScore(Candidates(cs, tokens, weather))))
  }

  /** What `scoreConditions` returns. */
  function Ranking(tokens: set<Token>, weather: Option<WeatherContext>): seq<Scored> {
    RankingOf(Conditions, tokens, weather)
  }

  /** `r.band = ...` on every entry of the sorted list. */
  method AssignBands(s: seq<Scored>) returns (out: seq<Scored>)
    ensures out == Banded(s)
  {
    out := s;
    var max := if |out| > 0 then out[0].score else 0;
    for i := 0 to |out|
      invariant |out| == |s|
      invariant forall k :: 0 <= k < i ==> out[k] == s[k].(band := Some(BandOf(s[k].score, max)))
      invariant forall k :: i <= k < |out| ==> out[k] == s[k]
    {
      out := out[i := out[i].(band := Some(BandOf(out[i].score, max)))];
    }
  }

  /** The loop of `scoreConditions` over a catalogue, pushing every entry that scores above zero. */
  method CollectCandidates(cs: seq<Condition>, tokens: set<Token>, weather: Option<WeatherContext>)
    returns (out: seq<Scored>)
    ensures out == Candidates(cs, tokens, weather)
  {
    out := [];
    for ci := 0 to |cs|
      invariant out == Candidates(cs[..ci], tokens, weather)
    {
      var c := cs[ci];
      assert cs[..ci + 1][..ci] == cs[..ci] && cs[..ci + 1][ci] == c;
      var score, why := ScoreCondition(c, tokens, weather);
      if score > 0 {
        out := out + [Scored(c.id, c.name, score, why, c.advice, c.monitor,
                             if c.escalate == "" then FallbackEscalation else c.escalate, None)];
      }
    }
    assert cs[..|cs|] == cs;
  }

  /** The basic shape of the result: at most five entries, sorted, all positive and banded. */
  lemma RankingShape(cs: seq<Condition>, tokens: set<Token>, weather: Option<WeatherContext>)
    ensures |RankingOf(cs, tokens, weather)| <= MaxResults
    ensures SortedDesc(RankingOf(cs, tokens, weather))
    ensures forall k :: 0 <= k < |RankingOf(cs, tokens, weather)| ==>
      RankingOf(cs, tokens, weather)[k].score > 0 && RankingOf(cs, tokens, weather)[k].band.Some?
  {
    var candidates := Candidates(cs, tokens, weather);
    var sorted := SortedByScore(candidates);
    SortedByScoreIsStable(candidates);
    forall k | 0 <= k < |sorted| ensures sorted[k].score > 0 {
      StableSortMembers(sorted, candidates, sorted[k]);
    }
  }

  // ---------------------------------------------------------------------------
  // What the candidates are

  /** Dropping the last entry of a catalogue with distinct ids keeps them distinct, and the last id is then new. */
  lemma DistinctIdsInit(cs: seq<Condition>)
    requires DistinctIds(cs) && cs != []
    ensures DistinctIds(cs[..|cs| - 1])
    ensures IndexOfId(cs[..|cs| - 1], cs[|cs| - 1].id) == |cs| - 1
    ensures cs == cs[..|cs| - 1] + [cs[|cs| - 1]]
  {
    var init := cs[..|cs| - 1];
    forall i, j | 0 <= i < j < |init| ensures init[i].id != init[j].id {
      assert init[i] == cs[i] && init[j] == cs[j];
    }
    var k := IndexOfId(init, cs[|cs| - 1].id);
    if k < |init| {
      assert false;
    }
  }

  /** An id found in the catalogue without its last entry is found at the same place in the whole. */
  lemma IndexInInit(cs: seq<Condition>, id: string)
    requires cs != [] && IndexOfId(cs[..|cs| - 1], id) < |cs| - 1
    ensures IndexOfId(cs, id) == IndexOfId(cs[..|cs| - 1], id)
    ensures cs[IndexOfId(cs, id)] == cs[..|cs| - 1][IndexOfId(cs, id)]
  {
    var n := |cs| - 1;
    IndexInPrefix(cs, n, id);
    var i := IndexOfId(cs, id);
    assert i < n;
    assert cs[..n][i] == cs[i];
  }

  lemma {:induction false} IndexInPrefix(cs: seq<Condition>, n: nat, id: string)
    requires n <= |cs| && IndexOfId(cs[..n], id) < n
    ensures IndexOfId(cs, id) == IndexOfId(cs[..n], id)
  {
    assert cs[..n][0] == cs[0];
    if cs[0].id != id {
      assert cs[..n][1..] == cs[1..][..n - 1];
      IndexInPrefix(cs[1..], n - 1, id);
    }
  }

  /** The last id of a catalogue with distinct ids is found at the last place. */
  lemma IndexOfLast(cs: seq<Condition>)
    requires DistinctIds(cs) && cs != []
    ensures IndexOfId(cs, cs[|cs| - 1].id) == |cs| - 1
  {
    DistinctIdsInit(cs);
    var init, last := cs[..|cs| - 1], cs[|cs| - 1];
    IndexOfIdSnoc(init, last, last.id);
  }

  /** Every entry of `r` is the one built from the entry of `cs` with its id. */
  predicate BuiltFrom(cs: seq<Condition>, r: seq<Scored>, tokens: set<Token>, weather: Option<WeatherContext>) {
    forall k :: 0 <= k < |r| ==>
      IndexOfId(cs, r[k].id) < |cs| && r[k] == Entry(cs[IndexOfId(cs, r[k].id)], tokens, weather)
  }

  /** The entries of `r` appear in the order of their ids in `cs`. */
  predicate InCatalogOrder(cs: seq<Condition>, r: seq<Scored>) {
    forall p, q :: 0 <= p < q < |r| ==> IndexOfId(cs, r[p].id) < IndexOfId(cs, r[q].id)
  }

  /** Over a catalogue with distinct ids, every candidate is the entry built from the catalogue entry with its id. */
  lemma {:induction false} CandidatesFromCatalog(cs: seq<Condition>, tokens: set<Token>, weather: Option<WeatherContext>)
    requires DistinctIds(cs)
    ensures BuiltFrom(cs, Candidates(cs, tokens, weather), tokens, weather)
  {
    if cs != [] {
      var init := cs[..|cs| - 1];
      DistinctIdsInit(cs);
      CandidatesFromCatalog(init, tokens, weather);
      var prev := Candidates(init, tokens, weather);
      var r := Candidates(cs, tokens, weather);
      assert BuiltFrom(init, prev, tokens, weather);
      forall k | 0 <= k < |r|
        ensures IndexOfId(cs, r[k].id) < |cs| && r[k] == Entry(cs[IndexOfId(cs, r[k].id)], tokens, weather)
      {
        if k < |prev| {
          assert r[k] == prev[k];
          IndexInInit(cs, prev[k].id);
        } else {
          IndexOfLast(cs);
        }
      }
    }
  }

  /** The candidates follow catalogue order. */
  lemma {:induction false} CandidatesInCatalogOrder(cs: seq<Condition>, tokens: set<Token>, weather: Option<WeatherContext>)
    requires DistinctIds(cs)
    ensures InCatalogOrder(cs, Candidates(cs, tokens, weather))
  {
    if cs != [] {
      var init := cs[..|cs| - 1];
      DistinctIdsInit(cs);
      CandidatesInCatalogOrder(init, tokens, weather);
      CandidatesFromCatalog(init, tokens, weather);
      var prev := Candidates(init, tokens, weather);
      var r := Candidates(cs, tokens, weather);
      assert BuiltFrom(init, prev, tokens, weather) && InCatalogOrder(init, prev);
      forall p, q | 0 <= p < q < |r| ensures IndexOfId(cs, r[p].id) < IndexOfId(cs, r[q].id) {
        assert r[p] == prev[p];
        IndexInInit(cs, prev[p].id);
        if q < |prev| {
          assert r[q] == prev[q];
          IndexInInit(cs, prev[q].id);
        } else {
          IndexOfLast(cs);
        }
      }
    }
  }

  /** A catalogue entry yields a candidate exactly when it scores above zero. */
  lemma {:induction false} CandidatesComplete(cs: seq<Condition>, tokens: set<Token>, weather: Option<WeatherContext>)
    requires DistinctIds(cs)
    ensures var r := Candidates(cs, tokens, weather);
      forall i :: 0 <= i < |cs| ==>
        (Entry(cs[i], tokens, weather) in r <==> ConditionScore(cs[i], tokens, weather) > 0)
  {
    if cs != [] {
      var n := |cs| - 1;
      var init := cs[..n];
      DistinctIdsInit(cs);
      CandidatesComplete(init, tokens, weather);
      CandidatesFromCatalog(init, tokens, weather);
      var prev := Candidates(init, tokens, weather);
      var r := Candidates(cs, tokens, weather);
      assert BuiltFrom(init, prev, tokens, weather);
      assert Entry(cs[n], tokens, weather) !in prev by {
        forall k | 0 <= k < |prev| ensures prev[k].id != cs[n].id {
          assert IndexOfId(init, prev[k].id) < n;
        }
      }
      forall i | 0 <= i < |cs|
        ensures Entry(cs[i], tokens, weather) in r <==> ConditionScore(cs[i], tokens, weather) > 0
      {
        if i < n {
          assert cs[i] == init[i];
          assert cs[i].id != cs[n].id;
        }
      }
    }
  }

  /** The catalogue itself has distinct ids, so the candidate lemmas apply to it. */
  lemma CatalogCandidates(tokens: set<Token>, weather: Option<WeatherContext>)
    ensures BuiltFrom(Conditions, Candidates(Conditions, tokens, weather), tokens, weather)
    ensures InCatalogOrder(Conditions, Candidates(Conditions, tokens, weather))
    ensures forall i :: 0 <= i < |Conditions| ==>
      (Entry(Conditions[i], tokens, weather) in Candidates(Conditions, tokens, weather)
       <==> ConditionScore(Conditions[i], tokens, weather) > 0)
  {
    CatalogWellFormed();
    CandidatesFromCatalog(Conditions, tokens, weather);
    CandidatesInCatalogOrder(Conditions, tokens, weather);
    CandidatesComplete(Conditions, tokens, weather);
  }


  /** `scoreConditions`. */
  method ScoreConditions(tokens: set<Token>, weather: Option<WeatherContext>) returns (results: seq<Scored>)
    ensures results == Ranking(tokens, weather)
    ensures |results| <= MaxResults && SortedDesc(results)
    ensures forall k :: 0 <= k < |results| ==> results[k].score > 0 && results[k].band.Some?
  {
    var candidates := CollectCandidates(Conditions, tokens, weather);
    var sorted := SortByScore(candidates);
    var banded := AssignBands(sorted);
    results := Top(banded);
    RankingShape(Conditions, tokens, weather);
  }

  // ---------------------------------------------------------------------------
  // Properties of the scorer

  /** Over a list without repeats, the number of matches is the size of the list-token intersection. */
  lemma {:induction false} MatchedCount(list: seq<Token>, tokens: set<Token>)
    requires NoRepeats(list)
    ensures |Matched(list, tokens)| == |ListSet(list) * tokens|
  {
    if list != [] {
      var init, last := list[..|list| - 1], list[|list| - 1];
      assert NoRepeats(init) by {
        forall i, j | 0 <= i < j < |init| ensures init[i] != init[j] {
          assert init[i] == list[i] && init[j] == list[j];
        }
      }
      assert last !in ListSet(init) by {
        forall i | 0 <= i < |init| ensures init[i] != last {
          assert init[i] == list[i];
        }
      }
      MatchedCount(init, tokens);
      assert |Matched(list, tokens)| == |Matched(init, tokens)| + (if last in tokens then 1 else 0);
      assert ListSet(list) == ListSet(init) + {last} by {
        assert list == init + [last];
        ListSetSnoc(init, last);
      }
      CountStep(ListSet(init), tokens, last);
    }
  }

  /** Adding a new element to a set adds one to its intersection with `tokens` exactly when it is a token. */
  lemma CountStep(a: set<Token>, tokens: set<Token>, last: Token)
    requires last !in a
    ensures |(a + {last}) * tokens| == |a * tokens| + (if last in tokens then 1 else 0)
  {
    if last in tokens {
      assert (a + {last}) * tokens == a * tokens + {last};
    } else {
      assert (a + {last}) * tokens == a * tokens;
    }
  }

  /**
   * For a well-formed entry the score is 2 per reported key token, 1 per reported support
   * token, -2 per reported exclude token, plus one per declared link the weather meets,
   * and the weather adds nothing when there is none.
   */
  lemma ScoreBySets(c: Condition, tokens: set<Token>, weather: Option<WeatherContext>)
    requires WellFormed(c)
    ensures ConditionScore(c, tokens, weather)
        == 2 * |ListSet(c.key) * tokens| + |ListSet(c.support) * tokens|
           - 2 * |ListSet(c.exclude) * tokens| + WeatherBonus(c.weatherLinks, weather)
    ensures weather.None? ==> WeatherBonus(c.weatherLinks, weather) == 0
  {
    MatchedCount(c.key, tokens);
    MatchedCount(c.support, tokens);
    MatchedCount(c.exclude, tokens);
  }

  /** `score/max` against 0.8 and 0.5, written in integers for a positive `max`. */
  lemma BandThresholds(score: int, max: int)
    requires max > 0
    ensures BandOf(score, max) == Higher <==> 5 * score >= 4 * max
    ensures BandOf(score, max) == Medium <==> 5 * score < 4 * max && 2 * score >= max
    ensures BandOf(score, max) == Lower <==> 2 * score < max
  {
    var x, m := score as real, max as real;
    RatioAtLeast(x, m, 0.8);
    RatioAtLeast(x, m, 0.5);
    assert x >= 0.8 * m <==> 5 * score >= 4 * max;
    assert x >= 0.5 * m <==> 2 * score >= max;
  }

  /** Comparing a ratio with a positive denominator is comparing the numerator with the scaled threshold. */
  lemma RatioAtLeast(x: real, m: real, t: real)
    requires m > 0.0
    ensures x / m >= t <==> x >= t * m
  {
    var q := x / m;
    assert x == q * m;
    assert x - t * m == (q - t) * m;
    if q >= t {
      assert (q - t) * m >= 0.0;
    } else {
      assert (q - t) * m < 0.0;
    }
  }

  /** A lower score never gets a higher band. */
  lemma BandMonotone(a: int, b: int, max: int)
    requires max > 0 && a >= b
    ensures BandRank(BandOf(a, max)) >= BandRank(BandOf(b, max))
  {
    BandThresholds(a, max);
    BandThresholds(b, max);
  }

  // ---------------------------------------------------------------------------
  // Properties of the ranking, over any catalogue whose ids are distinct

  /** The candidates after sorting, before banding and cutting. */
  function SortedCandidates(cs: seq<Condition>, tokens: set<Token>, weather: Option<WeatherContext>): seq<Scored> {
    SortedByScore(Candidates(cs, tokens, weather))
  }

  /** How the ranking is laid over the sorted candidates, which are the catalogue's entries stably sorted. */
  lemma RankingOverSorted(cs: seq<Condition>, tokens: set<Token>, weather: Option<WeatherContext>)
    requires DistinctIds(cs)
    ensures var s := SortedCandidates(cs, tokens, weather);
      |RankingOf(cs, tokens, weather)| == (if |s| <= MaxResults then |s| else MaxResults)
      && StableSortOf(s, Candidates(cs, tokens, weather))
      && BuiltFrom(cs, s, tokens, weather)
      && forall k :: 0 <= k < |RankingOf(cs, tokens, weather)| ==>
           RankingOf(cs, tokens, weather)[k] == s[k].(band := Some(BandOf(s[k].score, TopScore(s))))
  {
    var c := Candidates(cs, tokens, weather);
    var s := SortedCandidates(cs, tokens, weather);
    CandidatesFromCatalog(cs, tokens, weather);
    SortedByScoreIsStable(c);
    forall k | 0 <= k < |s|
      ensures IndexOfId(cs, s[k].id) < |cs| && s[k] == Entry(cs[IndexOfId(cs, s[k].id)], tokens, weather)
    {
      StableSortMembers(s, c, s[k]);
      var j :| 0 <= j < |c| && c[j] == s[k];
      assert BuiltFrom(cs, c, tokens, weather);
    }
  }

  /**
   * Every result is the entry its catalogue condition yields: the score is that condition's
   * score and positive, the explanation its matched tokens, and the texts its own (with the
   * fallback escalation when it has none).
   */
  lemma RankingSound(cs: seq<Condition>, tokens: set<Token>, weather: Option<WeatherContext>)
    requires DistinctIds(cs)
    ensures var r := RankingOf(cs, tokens, weather);
      forall k :: 0 <= k < |r| ==>
        var i := IndexOfId(cs, r[k].id);
        i < |cs|
        && r[k].score == ConditionScore(cs[i], tokens, weather) > 0
        && r[k].why == Why(cs[i], tokens)
        && r[k].(band := None) == Entry(cs[i], tokens, weather)
  {
    RankingOverSorted(cs, tokens, weather);
    RankingShape(cs, tokens, weather);
    var s := SortedCandidates(cs, tokens, weather);
    assert BuiltFrom(cs, s, tokens, weather);
  }

  /** A condition of a catalogue of at most five entries is in the ranking exactly when it scores above zero. */
  lemma RankingComplete(cs: seq<Condition>, tokens: set<Token>, weather: Option<WeatherContext>)
    requires DistinctIds(cs) && |cs| <= MaxResults
    ensures var r := RankingOf(cs, tokens, weather);
      forall i :: 0 <= i < |cs| ==>
        (ConditionScore(cs[i], tokens, weather) > 0
         <==> exists k :: 0 <= k < |r| && r[k].id == cs[i].id)
  {
    var r := RankingOf(cs, tokens, weather);
    var c := Candidates(cs, tokens, weather);
    var s := SortedCandidates(cs, tokens, weather);
    RankingOverSorted(cs, tokens, weather);
    RankingSound(cs, tokens, weather);
    CandidatesComplete(cs, tokens, weather);
    forall i | 0 <= i < |cs|
      ensures ConditionScore(cs[i], tokens, weather) > 0
          <==> exists k :: 0 <= k < |r| && r[k].id == cs[i].id
    {
      DistinctIdsIndex(cs, i);
      var e := Entry(cs[i], tokens, weather);
      if ConditionScore(cs[i], tokens, weather) > 0 {
        StableSortMembers(s, c, e);
        var k :| 0 <= k < |s| && s[k] == e;
        assert r[k].id == cs[i].id;
      }
    }
  }

  /** Results of equal score follow catalogue order. */
  lemma RankingTiesInCatalogOrder(cs: seq<Condition>, tokens: set<Token>, weather: Option<WeatherContext>)
    requires DistinctIds(cs)
    ensures var r := RankingOf(cs, tokens, weather);
      forall p, q :: 0 <= p < q < |r| && r[p].score == r[q].score ==>
        IndexOfId(cs, r[p].id) < IndexOfId(cs, r[q].id)
  {
    var r := RankingOf(cs, tokens, weather);
    var c := Candidates(cs, tokens, weather);
    var s := SortedCandidates(cs, tokens, weather);
    RankingOverSorted(cs, tokens, weather);
    CandidatesInCatalogOrder(cs, tokens, weather);
    forall p, q | 0 <= p < q < |r| && r[p].score == r[q].score
      ensures IndexOfId(cs, r[p].id) < IndexOfId(cs, r[q].id)
    {
      assert r[p].id == s[p].id && r[p].score == s[p].score;
      assert r[q].id == s[q].id && r[q].score == s[q].score;
      TieInOrder(cs, c, s, p, q);
    }
  }

  /** Two entries of equal score in a stable sort of a list in catalogue order keep that order. */
  lemma TieInOrder(cs: seq<Condition>, c: seq<Scored>, s: seq<Scored>, p: nat, q: nat)
    requires InCatalogOrder(cs, c) && SameScoreLists(s, c)
    requires p < q < |s| && s[p].score == s[q].score
    ensures IndexOfId(cs, s[p].id) < IndexOfId(cs, s[q].id)
  {
    StableKeepsOrder(s, c, p, q);
    var i, j :| 0 <= i < j < |c| && c[i] == s[p] && c[j] == s[q];
  }

  /** No condition appears twice in the ranking. */
  lemma RankingIdsDistinct(cs: seq<Condition>, tokens: set<Token>, weather: Option<WeatherContext>)
    requires DistinctIds(cs)
    ensures var r := RankingOf(cs, tokens, weather);
      forall p, q :: 0 <= p < q < |r| ==> r[p].id != r[q].id
  {
    var r := RankingOf(cs, tokens, weather);
    RankingSound(cs, tokens, weather);
    RankingTiesInCatalogOrder(cs, tokens, weather);
    forall p, q | 0 <= p < q < |r| ensures r[p].id != r[q].id {
      if r[p].score == r[q].score {
        assert IndexOfId(cs, r[p].id) < IndexOfId(cs, r[q].id);
      }
    }
  }

  /**
   * The first result is always in the higher band, every band is taken against the first
   * result's score, and a result never has a higher band than one ranked before it.
   */
  lemma RankingBands(cs: seq<Condition>, tokens: set<Token>, weather: Option<WeatherContext>)
    requires DistinctIds(cs)
    ensures var r := RankingOf(cs, tokens, weather);
      r != [] ==> r[0].band == Some(Higher)
    ensures var r := RankingOf(cs, tokens, weather);
      forall k :: 0 <= k < |r| ==>
        r[k].score <= r[0].score
        && r[k].band == Some(BandOf(r[k].score, r[0].score))
        && (r[k].band == Some(Higher) <==> 5 * r[k].score >= 4 * r[0].score)
        && (r[k].band == Some(Lower) <==> 2 * r[k].score < r[0].score)
    ensures var r := RankingOf(cs, tokens, weather);
      forall p, q :: 0 <= p < q < |r| ==> BandRank(r[p].band.value) >= BandRank(r[q].band.value)
  {
    var r := RankingOf(cs, tokens, weather);
    var s := SortedCandidates(cs, tokens, weather);
    RankingOverSorted(cs, tokens, weather);
    RankingShape(cs, tokens, weather);
    if r != [] {
      var top := r[0].score;
      assert top == TopScore(s);
      BandThresholds(top, top);
      forall k | 0 <= k < |r|
        ensures r[k].band == Some(BandOf(r[k].score, top))
             && (r[k].band == Some(Higher) <==> 5 * r[k].score >= 4 * top)
             && (r[k].band == Some(Lower) <==> 2 * r[k].score < top)
      {
        BandThresholds(r[k].score, top);
      }
      forall p, q | 0 <= p < q < |r| ensures BandRank(r[p].band.value) >= BandRank(r[q].band.value) {
        BandMonotone(r[p].score, r[q].score, top);
      }
    }
  }

  /** Every token in an explanation was reported, is listed by its condition, and is never one of its exclusions. */
  lemma WhyExplains(cs: seq<Condition>, tokens: set<Token>, weather: Option<WeatherContext>)
    requires DistinctIds(cs) && forall i :: 0 <= i < |cs| ==> WellFormed(cs[i])
    ensures var r := RankingOf(cs, tokens, weather);
      forall k, t :: 0 <= k < |r| && t in r[k].why ==>
        IndexOfId(cs, r[k].id) < |cs| && Explains(cs[IndexOfId(cs, r[k].id)], tokens, t)
  {
    var r := RankingOf(cs, tokens, weather);
    RankingSound(cs, tokens, weather);
    forall k, t | 0 <= k < |r| && t in r[k].why
      ensures IndexOfId(cs, r[k].id) < |cs| && Explains(cs[IndexOfId(cs, r[k].id)], tokens, t)
    {
      var i := IndexOfId(cs, r[k].id);
      assert i < |cs| && r[k].why == Why(cs[i], tokens);
      WhyTokens(cs[i], tokens, t);
    }
  }

  /** `t` was reported, is listed by `c`, and is not one of its exclusions. */
  predicate Explains(c: Condition, tokens: set<Token>, t: Token) {
    t in tokens && (t in c.key || t in c.support) && t !in c.exclude
  }

  /** A token of an entry's explanation was reported, is listed by the entry, and is not excluded by it. */
  lemma WhyTokens(c: Condition, tokens: set<Token>, t: Token)
    requires WellFormed(c) && t in Why(c, tokens)
    ensures Explains(c, tokens, t)
  {
    MatchedMembers(c.key, tokens);
    MatchedMembers(c.support, tokens);
  }
}
