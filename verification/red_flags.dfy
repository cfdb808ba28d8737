/**
 * The red-flag detector (`redFlagCheck`): an emergency tier whose rules all contribute a
 * reason, then an urgent tier where the first matching rule gives the single reason.
 */
module RedFlags {
  import opened Options
  import opened Inputs

  datatype Level = EmergencyNow | UrgentToday | NonUrgent

  datatype RedFlag = RedFlag(level: Level, reasons: seq<string>)

  const ChestPainMessage := "Chest pain with shortness of breath"
  const NeurologicMessage := "Neurologic concern"
  const BleedingMessage := "Bleeding with breathing symptoms"
  const HighFeverMessage := "Very high fever (\U{2265} 40\U{00B0}C)"
  const BreathingMessage := "Breathing difficulty"
  const VomitingMessage := "Persistent vomiting"

  // ---------------------------------------------------------------------------
  // The rule table the detector follows

  datatype EmergencyRule = ChestPainWithBreathlessness | NeurologicSign | BleedingWithBreathing

  /** The emergency rules in the order their reasons are reported. */
  const EmergencyRules: seq<EmergencyRule> :=
    [ChestPainWithBreathlessness, NeurologicSign, BleedingWithBreathing]

  /** The token groups of a rule: it fires when every token of some group was reported. */
  function Triggers(r: EmergencyRule): seq<set<Token>> {
    match r
    case ChestPainWithBreathlessness => [{"chest_pain", "shortness_of_breath"}]
    case NeurologicSign =>
      [{"seizures"}, {"speech_difficulty"}, {"memory_issues"}, {"confusion"}, {"vision_changes"}]
    case BleedingWithBreathing => [{"cough_blood"}, {"nose_bleed", "shortness_of_breath"}]
  }

  predicate Fires(r: EmergencyRule, tokens: set<Token>) {
    exists k :: 0 <= k < |Triggers(r)| && Triggers(r)[k] <= tokens
  }

  function Message(r: EmergencyRule): string {
    match r
    case ChestPainWithBreathlessness => ChestPainMessage
    case NeurologicSign => NeurologicMessage
    case BleedingWithBreathing => BleedingMessage
  }

  /** The messages of the rules that fire, in rule order. */
  function FiringMessages(rules: seq<EmergencyRule>, tokens: set<Token>): (ms: seq<string>)
    ensures |ms| <= |rules|
    ensures ms == [] <==> forall k :: 0 <= k < |rules| ==> !Fires(rules[k], tokens)
  {
    if rules == [] then []
    else
      (if Fires(rules[0], tokens) then [Message(rules[0])] else [])
      + FiringMessages(rules[1..], tokens)
  }

  /** Some emergency rule fires. */
  predicate AnyEmergency(tokens: set<Token>) {
    exists k :: 0 <= k < |EmergencyRules| && Fires(EmergencyRules[k], tokens)
  }

  datatype UrgentRule = VeryHighFever | BreathingDifficulty | PersistentVomiting

  /** The urgent rules in priority order. */
  const UrgentRules: seq<UrgentRule> := [VeryHighFever, BreathingDifficulty, PersistentVomiting]

  predicate UrgentFires(r: UrgentRule, tokens: set<Token>, vitals: Vitals) {
    match r
    case VeryHighFever => vitals.temperature.Some? && vitals.temperature.value >= 40.0
    case BreathingDifficulty => "shortness_of_breath" in tokens
    case PersistentVomiting => "vomiting" in tokens && vitals.duration >= 2.0
  }

  function UrgentMessage(r: UrgentRule): string {
    match r
    case VeryHighFever => HighFeverMessage
    case BreathingDifficulty => BreathingMessage
    case PersistentVomiting => VomitingMessage
  }

  /** The position of the first rule that fires, if any. */
  function FirstFiring(rules: seq<UrgentRule>, tokens: set<Token>, vitals: Vitals): (k: Option<nat>)
    ensures k.None? <==> forall j :: 0 <= j < |rules| ==> !UrgentFires(rules[j], tokens, vitals)
    ensures k.Some? ==> k.value < |rules| && UrgentFires(rules[k.value], tokens, vitals)
    ensures k.Some? ==> forall j :: 0 <= j < k.value ==> !UrgentFires(rules[j], tokens, vitals)
  {
    if rules == [] then None
    else if UrgentFires(rules[0], tokens, vitals) then Some(0)
    else match FirstFiring(rules[1..], tokens, vitals)
      case None => None
      case Some(j) => Some(j + 1)
  }

  /** What the detector decides, read off the two rule tables. */
  function RedFlagOf(tokens: set<Token>, vitals: Vitals): RedFlag {
    var emergency := FiringMessages(EmergencyRules, tokens);
    if emergency != [] then RedFlag(EmergencyNow, emergency)
    else match FirstFiring(UrgentRules, tokens, vitals)
      case Some(k) => RedFlag(UrgentToday, [UrgentMessage(UrgentRules[k])])
      case None => RedFlag(NonUrgent, [])
  }

  // ---------------------------------------------------------------------------
  // The detector

  /** `redFlagCheck`: the emergency tier first, then the urgent rules in priority order. */
  method RedFlagCheck(tokens: set<Token>, vitals: Vitals) returns (rf: RedFlag)
    ensures rf == RedFlagOf(tokens, vitals)
    ensures rf.level == EmergencyNow <==> AnyEmergency(tokens)
    ensures rf.level != EmergencyNow ==> |rf.reasons| <= 1
  {
    var reasons := EmergencyCheck(tokens);
    EmergencyRulesUnfold(tokens);
    if |reasons| > 0 {
      return RedFlag(EmergencyNow, reasons);
    }
    UrgentRulesUnfold(tokens, vitals);
    if vitals.temperature.Some? && vitals.temperature.value >= 40.0 {
      return RedFlag(UrgentToday, [HighFeverMessage]);
    }
    if "shortness_of_breath" in tokens {
      return RedFlag(UrgentToday, [BreathingMessage]);
    }
    if "vomiting" in tokens && vitals.duration >= 2.0 {
      return RedFlag(UrgentToday, [VomitingMessage]);
    }
    return RedFlag(NonUrgent, []);
  }

  /** The emergency tier of `redFlagCheck`, pushing the reason of each rule that fires. */
  method EmergencyCheck(tokens: set<Token>) returns (reasons: seq<string>)
    ensures reasons == FiringMessages(EmergencyRules, tokens)
  {
    reasons := [];
    if "chest_pain" in tokens && "shortness_of_breath" in tokens {
      reasons := reasons + [ChestPainMessage];
    }
    if "seizures" in tokens || "speech_difficulty" in tokens || "memory_issues" in tokens
      || "confusion" in tokens || "vision_changes" in tokens
    {
      reasons := reasons + [NeurologicMessage];
    }
    if "cough_blood" in tokens || ("nose_bleed" in tokens && "shortness_of_breath" in tokens) {
      reasons := reasons + [BleedingMessage];
    }
    ChestPainRule(tokens);
    NeurologicRule(tokens);
    BleedingRule(tokens);
    EmergencyRulesUnfold(tokens);
  }

  lemma ChestPainRule(tokens: set<Token>)
    ensures Fires(ChestPainWithBreathlessness, tokens)
        <==> "chest_pain" in tokens && "shortness_of_breath" in tokens
  {
    if "chest_pain" in tokens && "shortness_of_breath" in tokens {
      assert Triggers(ChestPainWithBreathlessness)[0] <= tokens;
    }
  }

  lemma NeurologicRule(tokens: set<Token>)
    ensures Fires(NeurologicSign, tokens)
        <==> "seizures" in tokens || "speech_difficulty" in tokens || "memory_issues" in tokens
             || "confusion" in tokens || "vision_changes" in tokens
  {
    var groups := Triggers(NeurologicSign);
    if "seizures" in tokens { assert groups[0] <= tokens; }
    if "speech_difficulty" in tokens { assert groups[1] <= tokens; }
    if "memory_issues" in tokens { assert groups[2] <= tokens; }
    if "confusion" in tokens { assert groups[3] <= tokens; }
    if "vision_changes" in tokens { assert groups[4] <= tokens; }
  }

  lemma BleedingRule(tokens: set<Token>)
    ensures Fires(BleedingWithBreathing, tokens)
        <==> "cough_blood" in tokens || ("nose_bleed" in tokens && "shortness_of_breath" in tokens)
  {
    var groups := Triggers(BleedingWithBreathing);
    if "cough_blood" in tokens { assert groups[0] <= tokens; }
    if "nose_bleed" in tokens && "shortness_of_breath" in tokens { assert groups[1] <= tokens; }
  }

  /** The emergency reasons spelled out rule by rule. */
  lemma EmergencyRulesUnfold(tokens: set<Token>)
    ensures FiringMessages(EmergencyRules, tokens)
        == (if Fires(ChestPainWithBreathlessness, tokens) then [ChestPainMessage] else [])
         + (if Fires(NeurologicSign, tokens) then [NeurologicMessage] else [])
         + (if Fires(BleedingWithBreathing, tokens) then [BleedingMessage] else [])
    ensures AnyEmergency(tokens) <==> FiringMessages(EmergencyRules, tokens) != []
  {
    var rules := EmergencyRules;
    assert rules[1..][1..][1..] == [];
    assert rules[1..][1..] == [BleedingWithBreathing];
    assert rules[1..] == [NeurologicSign, BleedingWithBreathing];
    assert FiringMessages(rules[1..][1..][1..], tokens) == [];
    assert FiringMessages(rules[1..][1..], tokens)
        == (if Fires(BleedingWithBreathing, tokens) then [BleedingMessage] else []) + [];
    assert FiringMessages(rules[1..], tokens)
        == (if Fires(NeurologicSign, tokens) then [NeurologicMessage] else [])
         + FiringMessages(rules[1..][1..], tokens);
  }

  /** The urgent rules spelled out one by one. */
  lemma UrgentRulesUnfold(tokens: set<Token>, vitals: Vitals)
    ensures FirstFiring(UrgentRules, tokens, vitals)
        == if UrgentFires(VeryHighFever, tokens, vitals) then Some(0)
           else if UrgentFires(BreathingDifficulty, tokens, vitals) then Some(1)
           else if UrgentFires(PersistentVomiting, tokens, vitals) then Some(2)
           else None
  {
    var rules := UrgentRules;
    assert rules[1..][1..][1..] == [];
    assert rules[1..][1..] == [PersistentVomiting];
    assert rules[1..] == [BreathingDifficulty, PersistentVomiting];
    assert FirstFiring(rules[1..][1..][1..], tokens, vitals) == None;
    assert FirstFiring(rules[1..][1..], tokens, vitals)
        == if UrgentFires(PersistentVomiting, tokens, vitals) then Some(0) else None;
    assert FirstFiring(rules[1..], tokens, vitals)
        == if UrgentFires(BreathingDifficulty, tokens, vitals) then Some(0)
           else if UrgentFires(PersistentVomiting, tokens, vitals) then Some(1) else None;
  }

  // ---------------------------------------------------------------------------
  // Properties of the detector

  /**
   * An emergency is declared exactly when some emergency rule fires, whatever the vitals;
   * its reasons are the messages of exactly the rules that fire, in the fixed order chest
   * pain, neurologic, bleeding, each at most once.
   */
  lemma EmergencyReasons(tokens: set<Token>, vitals: Vitals)
    ensures RedFlagOf(tokens, vitals).level == EmergencyNow <==> AnyEmergency(tokens)
    ensures AnyEmergency(tokens) ==>
      RedFlagOf(tokens, vitals).reasons
        == (if Fires(ChestPainWithBreathlessness, tokens) then [ChestPainMessage] else [])
         + (if Fires(NeurologicSign, tokens) then [NeurologicMessage] else [])
         + (if Fires(BleedingWithBreathing, tokens) then [BleedingMessage] else [])
    ensures forall r :: r in EmergencyRules ==>
        (Message(r) in RedFlagOf(tokens, vitals).reasons <==> Fires(r, tokens))
  {
    EmergencyRulesUnfold(tokens);
    var rf := RedFlagOf(tokens, vitals);
    forall r | r in EmergencyRules ensures Message(r) in rf.reasons <==> Fires(r, tokens) {
      MessageReported(tokens, vitals, r);
    }
  }

  lemma MessageReported(tokens: set<Token>, vitals: Vitals, r: EmergencyRule)
    ensures Message(r) in RedFlagOf(tokens, vitals).reasons <==> Fires(r, tokens)
  {
    EmergencyRulesUnfold(tokens);
    var fired := FiringMessages(EmergencyRules, tokens);
    if fired == [] {
      UrgentRulesUnfold(tokens, vitals);
    }
  }

  /** Emergency decisions do not look at the vitals at all. */
  lemma EmergencyIgnoresVitals(tokens: set<Token>, v1: Vitals, v2: Vitals)
    requires AnyEmergency(tokens)
    ensures RedFlagOf(tokens, v1) == RedFlagOf(tokens, v2)
  {
    EmergencyRulesUnfold(tokens);
  }

  /**
   * The urgent tier is reached only when no emergency rule fires; it gives one reason, that
   * of the first urgent rule that fires in the order fever, breathing, vomiting.
   */
  lemma UrgentReason(tokens: set<Token>, vitals: Vitals)
    ensures RedFlagOf(tokens, vitals).level == UrgentToday <==>
        !AnyEmergency(tokens) && exists r :: r in UrgentRules && UrgentFires(r, tokens, vitals)
    ensures RedFlagOf(tokens, vitals).level == UrgentToday ==>
        RedFlagOf(tokens, vitals).reasons ==
          [if UrgentFires(VeryHighFever, tokens, vitals) then HighFeverMessage
           else if "shortness_of_breath" in tokens then BreathingMessage
           else VomitingMessage]
  {
    EmergencyRulesUnfold(tokens);
    UrgentRulesUnfold(tokens, vitals);
    assert UrgentRules[0] == VeryHighFever && UrgentRules[1] == BreathingDifficulty;
  }

  /** Nothing fires: the case is not urgent and carries no reason. */
  lemma NonUrgentHasNoReasons(tokens: set<Token>, vitals: Vitals)
    ensures RedFlagOf(tokens, vitals).level == NonUrgent <==>
        !AnyEmergency(tokens) && forall r :: r in UrgentRules ==> !UrgentFires(r, tokens, vitals)
    ensures RedFlagOf(tokens, vitals).level == NonUrgent ==> RedFlagOf(tokens, vitals).reasons == []
  {
    EmergencyRulesUnfold(tokens);
    UrgentRulesUnfold(tokens, vitals);
  }

  /** A temperature of at least 40 with no emergency token is urgent with the fever reason. */
  lemma VeryHighFeverIsUrgent(tokens: set<Token>, vitals: Vitals)
    requires !AnyEmergency(tokens)
    requires vitals.temperature.Some? && vitals.temperature.value >= 40.0
    ensures RedFlagOf(tokens, vitals) == RedFlag(UrgentToday, [HighFeverMessage])
  {
    EmergencyRulesUnfold(tokens);
    UrgentRulesUnfold(tokens, vitals);
  }
}
