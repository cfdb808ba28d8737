/** The fixed catalogue of conditions (`CONDITIONS`) the scorer walks through. */
module Catalog {
  import opened Inputs

  /** An environmental factor a condition reacts to. */
  datatype WeatherLink = AqiHigh | PollenHigh | HeatHigh | ColdAir

  /**
   * One catalogue entry. A list the source leaves out (`support`, `exclude`,
   * `weather_links`) is the empty sequence here, which the scorer treats the same way.
   */
  datatype Condition = Condition(
    id: string,
    name: string,
    key: seq<Token>,
    support: seq<Token>,
    exclude: seq<Token>,
    weatherLinks: seq<WeatherLink>,
    advice: seq<string>,
    monitor: seq<string>,
    escalate: string)

  const ViralUri := Condition("viral_uri", "Common cold",
    ["runny_nose", "sore_throat", "cough_dry", "blocked_nose"], ["headache", "fatigue"], [], [],
    ["Rest and hydrate.", "Use saline spray; warm showers or humidified air."],
    ["Fever > 48h", "Breathing difficulty"],
    "See a GP if not improving after 3\U{2013}5 days.")

  const Allergy := Condition("allergy", "Allergic rhinitis",
    ["runny_nose", "itchy", "sneezing", "light_sound_sensitivity"], ["blocked_nose"], ["fever"], [],
    ["Limit outdoor exposure when pollen is high.",
     "Non-sedating antihistamines or saline rinses may help."],
    ["Worsening wheeze or breathlessness"],
    "See a GP if persistent.")

  const Asthma := Condition("asthma", "Asthma flare",
    ["shortness_of_breath", "cough_dry", "wheezing"], ["chest_pain"], [],
    [AqiHigh, PollenHigh, ColdAir, HeatHigh],
    ["Follow your asthma action plan.",
     "Avoid triggers; consider staying indoors if air quality/pollen is poor."],
    ["Need for reliever frequently"],
    "Seek urgent care if breathing worsens.")

  const Gastro := Condition("gastro", "Gastroenteritis",
    ["diarrhea", "vomiting", "stomachache"], ["nausea"], [], [],
    ["Small sips of oral rehydration solution.", "Avoid alcohol and dairy until improved."],
    ["Dehydration signs"],
    "See a clinician if unable to keep fluids down or >48h.")

  const Migraine := Condition("migraine", "Migraine",
    ["headache", "light_sound_sensitivity", "nausea"], [], ["speech_difficulty", "seizures", "confusion"], [],
    ["Rest in a dark, quiet room; hydrate."],
    ["New or changing pattern"],
    "Seek care if severe or different from usual.")

  /** The catalogue, in the order the scorer walks it. */
  const Conditions: seq<Condition> := [ViralUri, Allergy, Asthma, Gastro, Migraine]

  /** The id that sends a case to a GP within 24-48 hours. */
  const GastroId := "gastro"

  /** The position of the first entry of `cs` with this id, or `|cs|` when there is none. */
  function IndexOfId(cs: seq<Condition>, id: string): (i: nat)
    ensures i <= |cs|
    ensures i < |cs| ==> cs[i].id == id
    ensures forall j :: 0 <= j < i ==> cs[j].id != id
  {
    if cs == [] then 0
    else if cs[0].id == id then 0
    else 1 + IndexOfId(cs[1..], id)
  }

  /** The catalogue position of a condition id. */
  function CatalogIndex(id: string): nat {
    IndexOfId(Conditions, id)
  }

  /** No two entries share an id. */
  predicate DistinctIds(cs: seq<Condition>) {
    forall i, j :: 0 <= i < j < |cs| ==> cs[i].id != cs[j].id
  }

  /** No token is listed twice in one list. */
  predicate NoRepeats(ts: seq<Token>) {
    forall i, j :: 0 <= i < j < |ts| ==> ts[i] != ts[j]
  }

  /** An entry's lists are well formed: no repeats, and a matched token is never an excluded one. */
  predicate WellFormed(c: Condition) {
    NoRepeats(c.key) && NoRepeats(c.support) && NoRepeats(c.exclude)
    && (forall t :: t in c.key ==> t !in c.support)
    && (forall t :: t in c.exclude ==> t !in c.key && t !in c.support)
  }

  /** The catalogue's ids are distinct and every entry is well formed. */
  lemma CatalogWellFormed()
    ensures DistinctIds(Conditions)
    ensures forall i :: 0 <= i < |Conditions| ==> WellFormed(Conditions[i])
    ensures |Conditions| == 5 && Conditions[3].id == GastroId
  {
    CatalogIds();
    forall i | 0 <= i < |Conditions| ensures WellFormed(Conditions[i]) {
      EntryWellFormed(i);
    }
  }

  /** The ids in catalogue order. */
  lemma CatalogIds()
    ensures |Conditions| == 5
    ensures Conditions[0].id == "viral_uri" && Conditions[1].id == "allergy" && Conditions[2].id == "asthma"
         && Conditions[3].id == GastroId && Conditions[4].id == "migraine"
    ensures DistinctIds(Conditions)
  {
  }

  lemma EntryWellFormed(i: nat)
    requires i < |Conditions|
    ensures WellFormed(Conditions[i])
  {
    if i == 0 {
      ViralUriWellFormed();
    } else if i == 1 {
      AllergyWellFormed();
    } else if i == 2 {
      AsthmaWellFormed();
    } else if i == 3 {
      GastroWellFormed();
    } else {
      MigraineWellFormed();
    }
  }

  lemma ViralUriWellFormed() ensures WellFormed(ViralUri) {
    assert ViralUri.key == ["runny_nose", "sore_throat", "cough_dry", "blocked_nose"];
    assert ViralUri.support == ["headache", "fatigue"] && ViralUri.exclude == [];
  }

  lemma AllergyWellFormed() ensures WellFormed(Allergy) {
    assert Allergy.key == ["runny_nose", "itchy", "sneezing", "light_sound_sensitivity"];
    assert Allergy.support == ["blocked_nose"] && Allergy.exclude == ["fever"];
  }

  lemma AsthmaWellFormed() ensures WellFormed(Asthma) {
    assert Asthma.key == ["shortness_of_breath", "cough_dry", "wheezing"];
    assert Asthma.support == ["chest_pain"] && Asthma.exclude == [];
  }

  lemma GastroWellFormed() ensures WellFormed(Gastro) {
    assert Gastro.key == ["diarrhea", "vomiting", "stomachache"];
    assert Gastro.support == ["nausea"] && Gastro.exclude == [];
  }

  lemma MigraineWellFormed() ensures WellFormed(Migraine) {
    assert Migraine.key == ["headache", "light_sound_sensitivity", "nausea"];
    assert Migraine.support == [] && Migraine.exclude == ["speech_difficulty", "seizures", "confusion"];
  }

  /** Each entry sits at its own catalogue position. */
  lemma CatalogIndexOfEntry(i: nat)
    requires i < |Conditions|
    ensures CatalogIndex(Conditions[i].id) == i
  {
    CatalogWellFormed();
    DistinctIdsIndex(Conditions, i);
  }

  lemma {:induction false} DistinctIdsIndex(cs: seq<Condition>, i: nat)
    requires DistinctIds(cs) && i < |cs|
    ensures IndexOfId(cs, cs[i].id) == i
  {
    if i > 0 {
      assert cs[0].id != cs[i].id;
      assert cs[1..][i - 1] == cs[i];
      DistinctIdsIndex(cs[1..], i - 1);
    }
  }

  /** Looking an id up in a catalogue extended by one entry. */
  lemma {:induction false} IndexOfIdSnoc(cs: seq<Condition>, last: Condition, id: string)
    ensures IndexOfId(cs + [last], id)
        == if IndexOfId(cs, id) < |cs| then IndexOfId(cs, id)
           else if last.id == id then |cs| else |cs| + 1
  {
    if cs != [] {
      assert (cs + [last])[1..] == cs[1..] + [last];
      IndexOfIdSnoc(cs[1..], last, id);
    }
  }
}
