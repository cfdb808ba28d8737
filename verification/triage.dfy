/**
 * The composition step of `analyze`: the red-flag decision comes first; only when it is not
 * an emergency are the conditions scored, the care level chosen (urgent, else GP when
 * gastroenteritis is among the results, else self-care) and the advice, monitoring and
 * escalation texts taken from the top result.
 */
module Triage {
  import opened Options
  import opened Inputs
  import opened Weather
  import opened RedFlags
  import opened Catalog
  import opened Results
  import opened StableSort
  import opened Scoring

  /** The four care levels the user is shown. */
  datatype Urgency = Emergency | UrgentCare | GpWithin24To48h | SelfCare

  /** Everything `analyze` renders. */
  datatype Recommendation = Recommendation(
    level: Urgency,
    reasons: seq<string>,
    conditions: seq<Scored>,
    advice: seq<string>,
    monitor: seq<string>,
    escalation: string)

  const EmergencyAdvice: seq<string> := ["Call your local emergency number now."]
  const EmergencyEscalation := "Immediate medical attention recommended."

  /** `results.some(r => r.id === id)`. */
  predicate HasId(results: seq<Scored>, id: string) {
    exists k :: 0 <= k < |results| && results[k].id == id
  }

  /** The level of a case that is not an emergency. */
  function LevelOf(rf: RedFlag, results: seq<Scored>): Urgency {
    if rf.level == UrgentToday then UrgentCare
    else if HasId(results, GastroId) then GpWithin24To48h
    else SelfCare
  }

  /** The recommendation for a case that is not an emergency: texts come from the first result, if any. */
  function Compose(rf: RedFlag, results: seq<Scored>): Recommendation {
    Recommendation(
      LevelOf(rf, results),
      rf.reasons,
      results,
      if results == [] then [] else results[0].advice,
      if results == [] then [] else results[0].monitor,
      if results == [] || results[0].escalate == "" then FallbackEscalation else results[0].escalate)
  }

  /** What `analyze` shows for these tokens, vitals and stored weather. */
  function Evaluate(tokens: set<Token>, vitals: Vitals, weather: Option<WeatherContext>): Recommendation {
    var rf := RedFlagOf(tokens, vitals);
    if rf.level == EmergencyNow then
      Recommendation(Emergency, rf.reasons, [], EmergencyAdvice, [], EmergencyEscalation)
    else
      Compose(rf, Ranking(tokens, weather))
  }

  /** `analyze`, after the tokens and vitals have been collected. */
  method Analyze(tokens: set<Token>, vitals: Vitals, weather: Option<WeatherContext>) returns (rec: Recommendation)
    ensures rec == Evaluate(tokens, vitals, weather)
    ensures rec.level == Emergency <==> AnyEmergency(tokens)
    ensures rec.level == Emergency ==> rec.conditions == []
    ensures |rec.conditions| <= MaxResults && SortedDesc(rec.conditions)
  {
    var rf := RedFlagCheck(tokens, vitals);
    if rf.level == EmergencyNow {
      return Recommendation(Emergency, rf.reasons, [], EmergencyAdvice, [], EmergencyEscalation);
    }
    var results := ScoreConditions(tokens, weather);
    var level := SelfCare;
    if rf.level == UrgentToday {
      level := UrgentCare;
    } else if HasId(results, GastroId) {
      level := GpWithin24To48h;
    }
    var advice: seq<string> := [];
    var monitor: seq<string> := [];
    var escalation := FallbackEscalation;
    if |results| > 0 {
      var top := results[0];
      advice, monitor := top.advice, top.monitor;
      if top.escalate != "" {
        escalation := top.escalate;
      }
    }
    rec := Recommendation(level, rf.reasons, results, advice, monitor, escalation);
  }

  // ---------------------------------------------------------------------------
  // Properties

  /**
   * An emergency token set always gives the emergency recommendation: the fixed advice and
   * escalation, no conditions and nothing to monitor, with the firing rules as reasons,
   * whatever the vitals and the weather.
   */
  lemma EmergencyDominates(tokens: set<Token>, vitals: Vitals, weather: Option<WeatherContext>,
                           otherVitals: Vitals, otherWeather: Option<WeatherContext>)
    requires AnyEmergency(tokens)
    ensures var rec := Evaluate(tokens, vitals, weather);
      rec.level == Emergency && rec.conditions == [] && rec.monitor == []
      && rec.advice == EmergencyAdvice && rec.escalation == EmergencyEscalation
      && rec.reasons == FiringMessages(EmergencyRules, tokens) && rec.reasons != []
    ensures Evaluate(tokens, vitals, weather) == Evaluate(tokens, otherVitals, otherWeather)
  {
    EmergencyReasons(tokens, vitals);
    EmergencyIgnoresVitals(tokens, vitals, otherVitals);
  }

  /** Gastroenteritis is among the results exactly when its catalogue entry scores above zero. */
  lemma GastroInRanking(tokens: set<Token>, weather: Option<WeatherContext>)
    ensures HasId(Ranking(tokens, weather), GastroId)
        <==> ConditionScore(Conditions[3], tokens, weather) > 0
  {
    CatalogWellFormed();
    RankingComplete(Conditions, tokens, weather);
  }

  /**
   * The level of a case that is not an emergency: urgent exactly when the red-flag check says
   * so; otherwise GP within 24-48 hours exactly when gastroenteritis scores above zero, and
   * self-care when it does not. Only an urgent case carries a reason.
   */
  lemma LevelPriority(tokens: set<Token>, vitals: Vitals, weather: Option<WeatherContext>)
    requires !AnyEmergency(tokens)
    ensures var rec := Evaluate(tokens, vitals, weather);
      (rec.level == UrgentCare <==> exists r :: r in UrgentRules && UrgentFires(r, tokens, vitals))
      && (rec.level == GpWithin24To48h <==>
            (forall r :: r in UrgentRules ==> !UrgentFires(r, tokens, vitals))
            && ConditionScore(Conditions[3], tokens, weather) > 0)
      && (rec.level == SelfCare <==>
            (forall r :: r in UrgentRules ==> !UrgentFires(r, tokens, vitals))
            && ConditionScore(Conditions[3], tokens, weather) <= 0)
      && (rec.level != UrgentCare ==> rec.reasons == [])
      && |rec.reasons| <= 1
  {
    EmergencyReasons(tokens, vitals);
    UrgentReason(tokens, vitals);
    NonUrgentHasNoReasons(tokens, vitals);
    GastroInRanking(tokens, weather);
  }

  /**
   * Outside an emergency every scored condition is shown, best first, and the advice,
   * monitoring list and escalation are those of the top condition's catalogue entry, or
   * empty lists and the fallback escalation when nothing scored.
   */
  lemma TextFromTop(tokens: set<Token>, vitals: Vitals, weather: Option<WeatherContext>)
    requires !AnyEmergency(tokens)
    ensures var rec := Evaluate(tokens, vitals, weather);
      rec.conditions == Ranking(tokens, weather)
      && (rec.conditions == [] ==>
            rec.advice == [] && rec.monitor == [] && rec.escalation == FallbackEscalation)
      && (rec.conditions != [] ==>
            CatalogIndex(rec.conditions[0].id) < |Conditions|
            && var c := Conditions[CatalogIndex(rec.conditions[0].id)];
            (forall k :: 0 <= k < |rec.conditions| ==> rec.conditions[k].score <= rec.conditions[0].score)
            && rec.advice == c.advice && rec.monitor == c.monitor
            && rec.escalation == (if c.escalate == "" then FallbackEscalation else c.escalate))
  {
    EmergencyReasons(tokens, vitals);
    CatalogWellFormed();
    RankingSound(Conditions, tokens, weather);
    RankingShape(Conditions, tokens, weather);
  }

  /** An empty token set matches nothing in any list. */
  lemma {:induction false} NothingMatched(list: seq<Token>)
    ensures Matched(list, {}) == []
  {
    if list != [] {
      NothingMatched(list[..|list| - 1]);
    }
  }

  /** Without tokens or weather no entry of any catalogue scores, so nothing is ranked. */
  lemma {:induction false} NoTokensNoCandidates(cs: seq<Condition>)
    ensures Candidates(cs, {}, None) == []
  {
    if cs != [] {
      var c := cs[|cs| - 1];
      NothingMatched(c.key);
      NothingMatched(c.support);
      NothingMatched(c.exclude);
      NoTokensNoCandidates(cs[..|cs| - 1]);
    }
  }

  /** No emergency rule fires on an empty token set. */
  lemma NoTokensNoEmergency()
    ensures !AnyEmergency({})
  {
    forall k | 0 <= k < |EmergencyRules| ensures !Fires(EmergencyRules[k], {}) {
      assert forall j :: 0 <= j < |Triggers(EmergencyRules[k])| ==> Triggers(EmergencyRules[k])[j] != {};
    }
  }

  /** With no token and no temperature nothing is urgent. */
  lemma NoTokensNotUrgent(vitals: Vitals)
    requires vitals.temperature.None?
    ensures RedFlagOf({}, vitals) == RedFlag(NonUrgent, [])
  {
    NoTokensNoEmergency();
    NonUrgentHasNoReasons({}, vitals);
  }

  /** With no token and no weather nothing is ranked. */
  lemma NoTokensNothingRanked()
    ensures Ranking({}, None) == []
  {
    NoTokensNoCandidates(Conditions);
    assert SortedByScore([]) == [];
  }

  /** With no token, no temperature and no weather, the case is self-care with no condition and the fallback escalation. */
  lemma NoTokensNoWeatherIsSelfCare(vitals: Vitals)
    requires vitals.temperature.None?
    ensures Evaluate({}, vitals, None) == Recommendation(SelfCare, [], [], [], [], FallbackEscalation)
  {
    NoTokensNotUrgent(vitals);
    NoTokensNothingRanked();
  }
}
