# CHOPPER triage engine in Dafny

This project models the decision core of the CHOPPER symptom checker
(`CHOPPER_Enhanced/script.js`). The checker takes a set of symptom tokens (chips the user
selected, plus tokens found in a free-text field), a vitals record and an optional weather
record. From these it produces a care level, the reasons for it, a ranked list of explained
conditions, and the advice, monitoring and escalation texts shown to the user.

The model follows the program's own steps:

- **`RedFlags`**: the red-flag detector `redFlagCheck`.
  - An emergency tier collects a reason from every rule that fires.
  - An urgent tier then gives the single reason of the first rule that fires.
  - Otherwise the result is non-urgent.
  - The method pushes reasons the way the source does. It is proved against two rule tables that serve as an independent reference.
- **`Catalog`**: the five `CONDITIONS` entries, exactly as written, and the facts the scorer relies on.
  - The ids are distinct.
  - No token is repeated within a list.
  - No exclude token is also a key or support token.
- **`Scoring`** and **`StableSort`**: `scoreConditions`.
  - Every entry is scored: +2 per reported key token, +1 per support token, −2 per exclude token, and +1 per weather link the stored weather meets.
  - Entries scoring above zero are kept.
  - `Array.prototype.sort` (which is stable) orders them by descending score.
  - Each is banded against the top score, and the list is cut to five.
  - The loops become methods with invariants, proved equal to specification functions. The in-place sort is an insertion sort by neighbour swaps. A uniqueness lemma shows that any list that is sorted and keeps the per-score order is *the* result.
- **`Triage`**: the non-rendering part of `analyze`.
  - An emergency suppresses scoring.
  - Otherwise the level is urgent, else GP within 24–48 hours when the result with id `"gastro"` is present, else self-care.
  - The texts come from the top result, with fixed fallbacks.
- **`Weather`**: the pure helpers of `fetchWeatherForDuration`.
  - The forecast-window clamp of `getDurationDays`.
  - The AQI and pollen category thresholds.
  - The weather record that is stored.
- **`Session`**: the page `state`, as a class with the fields `symptoms`, `chronic` and `weather`.
  - The chip toggle.
  - `collectTokens`: the keyword scan of the free text, and the chronic-conditions split and accumulation.
  - Storing fetched weather.
  - Running the analysis.
- **`Text`**: the JavaScript string operations the collector uses: `toLowerCase`, `includes`, `trim` and `split(/[,;]+/)`.

Behaviour worth noting, which the model keeps as the code has it:

- An empty hourly AQI series averages to 0 and is categorised **low**, not unknown (`script.js:116-117`).
- Pollen is **unknown** only when the pollen fetch throws. Missing pollen arrays average to 0 and give **low**, and a NaN total is also **low** (`script.js:102-112`).
- The GP level is keyed on the catalogue id `"gastro"` (`script.js:289`).
- The symptom duration is whatever `Number` gives (or 0), so it may be fractional or negative. The urgent vomiting rule compares it with 2 as a real.

The band test `score/max >= 0.8` (or `>= 0.5`) is modelled with exact rationals, and `BandThresholds` states it in integers. All scores are small integers (at most 11 with this catalogue), so the floating-point quotient of the source gives the same comparisons.

## Model

| member | source | states |
|---|---|---|
| RedFlags.RedFlagCheck | CHOPPER_Enhanced/script.js:165-176 | the detector's result is the one read off the emergency and urgent rule tables; the level is emergency exactly when some emergency rule fires; a non-emergency result has at most one reason |
| RedFlags.EmergencyCheck | CHOPPER_Enhanced/script.js:166-170 | the emergency tier pushes exactly the messages of the rules that fire, in table order |
| RedFlags.FiringMessages | CHOPPER_Enhanced/script.js:168-170 | the emergency reasons list has at most one message per rule, and is empty exactly when no rule fires |
| RedFlags.FirstFiring | CHOPPER_Enhanced/script.js:172-175 | the chosen urgent rule fires and no earlier rule does; none is chosen exactly when no rule fires |
| RedFlags.ChestPainRule | CHOPPER_Enhanced/script.js:168 | the chest-pain rule fires exactly when both chest pain and shortness of breath are reported |
| RedFlags.NeurologicRule | CHOPPER_Enhanced/script.js:169 | the neurologic rule fires exactly when one of its five tokens is reported |
| RedFlags.BleedingRule | CHOPPER_Enhanced/script.js:170 | the bleeding rule fires exactly on coughing blood, or on nose bleed together with shortness of breath |
| RedFlags.EmergencyReasons | CHOPPER_Enhanced/script.js:168-171 | emergency exactly when a tier-1 rule fires; its reasons are exactly the firing rules' messages in the order chest, neurologic, bleeding |
| RedFlags.EmergencyIgnoresVitals | CHOPPER_Enhanced/script.js:171 | once an emergency rule fires, the vitals do not change the result |
| RedFlags.UrgentReason | CHOPPER_Enhanced/script.js:172-174 | urgent exactly when no emergency rule fires and some urgent rule does; the one reason is that of the first in the order fever, breathing, vomiting |
| RedFlags.NonUrgentHasNoReasons | CHOPPER_Enhanced/script.js:175 | non-urgent exactly when no rule of either tier fires, and then there is no reason |
| RedFlags.VeryHighFeverIsUrgent | CHOPPER_Enhanced/script.js:172 | a temperature of at least 40 °C without an emergency token gives urgent with the fever reason |
| Catalog.CatalogWellFormed | CHOPPER_Enhanced/script.js:179-191 | the five catalogue ids are distinct, no entry repeats a token within a list, and exclude tokens are never key or support tokens; gastroenteritis is the fourth entry |
| Catalog.IndexOfId | CHOPPER_Enhanced/script.js:179-191 | the lookup of an id finds the first entry with that id, or reports that there is none |
| Catalog.CatalogIndexOfEntry | CHOPPER_Enhanced/script.js:179-191 | looking up an entry's id gives back that entry's position |
| Scoring.ScoreCondition | CHOPPER_Enhanced/script.js:195-204 | the three loops and the weather tests compute the entry's score and its explanation |
| Scoring.ScanList | CHOPPER_Enhanced/script.js:196-198 | one token loop notes exactly the listed tokens that were reported, in list order, and adds its weight for each |
| Scoring.WeatherPoints | CHOPPER_Enhanced/script.js:199-204 | the four weather tests add exactly one point per declared link the weather meets |
| Scoring.MatchedMembers | CHOPPER_Enhanced/script.js:196-198 | a listed token is matched exactly when it was reported |
| Scoring.MatchedCount | CHOPPER_Enhanced/script.js:196-198 | for a list without repeats, the number of matches is the size of the list∩tokens intersection |
| Scoring.ScoreBySets | CHOPPER_Enhanced/script.js:194-205 | a score is 2·\|key∩tokens\| + \|support∩tokens\| − 2·\|exclude∩tokens\| + the weather bonus; without weather the bonus is 0 |
| Scoring.WeatherBonusUnfold | CHOPPER_Enhanced/script.js:199-204 | the weather bonus is one point for each of AQI high, pollen high, some daily maximum ≥ 32 and some daily minimum ≤ 8 that the entry declares and the weather meets |
| Scoring.Candidates | CHOPPER_Enhanced/script.js:205 | the kept entries are no more than the catalogue and all score above zero |
| Scoring.CollectCandidates | CHOPPER_Enhanced/script.js:194-206 | the loop over the catalogue pushes exactly the candidates |
| Scoring.CandidatesFromCatalog | CHOPPER_Enhanced/script.js:194-205 | every kept entry is the one built from the catalogue entry with its id |
| Scoring.CandidatesInCatalogOrder | CHOPPER_Enhanced/script.js:194-205 | kept entries appear in catalogue order |
| Scoring.CandidatesComplete | CHOPPER_Enhanced/script.js:205 | a catalogue entry is kept exactly when it scores above zero |
| StableSort.SortByScore | CHOPPER_Enhanced/script.js:207 | the in-place sort leaves the list in non-increasing score with each score's entries in their original order, and equal to the reference sort |
| StableSort.SortedByScoreIsStable | CHOPPER_Enhanced/script.js:207 | the reference insertion sort is sorted by descending score and keeps each score's entries in order |
| StableSort.StableSortUnique | CHOPPER_Enhanced/script.js:207 | two lists that are sorted and keep each score's entries in the same order are equal, so the stable sort's result is determined |
| StableSort.StableSortIsPermutation | CHOPPER_Enhanced/script.js:207 | a stable sort is a permutation of its input |
| StableSort.StableKeepsOrder | CHOPPER_Enhanced/script.js:207 | two entries of equal score keep their relative order |
| Scoring.AssignBands | CHOPPER_Enhanced/script.js:208-209 | every entry gets the band of its score relative to the first entry's score |
| Scoring.Banded | CHOPPER_Enhanced/script.js:208-209 | each banded entry is the sorted entry with the band of score/top |
| Scoring.Top | CHOPPER_Enhanced/script.js:210 | at most five entries are returned |
| Scoring.BandThresholds | CHOPPER_Enhanced/script.js:209 | for a positive top score: higher iff 5·score ≥ 4·max, medium iff 5·score < 4·max and 2·score ≥ max, lower iff 2·score < max |
| Scoring.BandMonotone | CHOPPER_Enhanced/script.js:209 | a higher-or-equal score never gets a lower band |
| Scoring.ScoreConditions | CHOPPER_Enhanced/script.js:192-211 | the scorer returns the specified ranking, at most five entries, non-increasing in score, each scoring above zero and banded |
| Scoring.RankingShape | CHOPPER_Enhanced/script.js:205-210 | the ranking has at most five entries, is sorted by descending score, and every entry is positive and banded |
| Scoring.RankingSound | CHOPPER_Enhanced/script.js:194-205 | every result is a catalogue condition; its score is that condition's score and is positive; its explanation is the matched key then support tokens; its texts are the condition's |
| Scoring.RankingComplete | CHOPPER_Enhanced/script.js:205-210 | for a catalogue of at most five entries, a condition is in the result exactly when it scores above zero |
| Scoring.RankingTiesInCatalogOrder | CHOPPER_Enhanced/script.js:194-207 | results of equal score are in catalogue order |
| Scoring.RankingIdsDistinct | CHOPPER_Enhanced/script.js:194-210 | no condition id appears twice in the result |
| Scoring.RankingBands | CHOPPER_Enhanced/script.js:208-209 | the first result is in the higher band; every band is taken against the first score in its integer form; bands never rise down the list |
| Scoring.WhyExplains | CHOPPER_Enhanced/script.js:196-197 | every explanation token was reported and is a key or support token of its condition, never an exclude token |
| Triage.Analyze | CHOPPER_Enhanced/script.js:278-295 | `analyze` produces the specified recommendation; emergency exactly when an emergency rule fires, and then with no conditions; at most five conditions in descending score |
| Triage.EmergencyDominates | CHOPPER_Enhanced/script.js:280-285 | an emergency gives the fixed advice and escalation, no conditions, nothing to monitor and the firing rules as reasons, whatever the vitals and the weather |
| Triage.GastroInRanking | CHOPPER_Enhanced/script.js:289 | a result with id "gastro" is present exactly when gastroenteritis scores above zero |
| Triage.LevelPriority | CHOPPER_Enhanced/script.js:287-290 | outside an emergency the level is urgent exactly when an urgent rule fires, GP exactly when none does and gastroenteritis scores, and self-care otherwise; only urgent carries a reason |
| Triage.TextFromTop | CHOPPER_Enhanced/script.js:291-295 | outside an emergency all results are shown; the advice, monitor list and escalation are the top condition's, or empty lists and "If symptoms worsen, seek medical care." when there are none |
| Triage.NoTokensNoCandidates | CHOPPER_Enhanced/script.js:194-205 | without tokens or weather no catalogue entry is kept |
| Triage.NoTokensNoWeatherIsSelfCare | CHOPPER_Enhanced/script.js:276-295 | no tokens, no temperature and no weather give self-care with no reason, no condition, no advice and the fallback escalation |
| Weather.ForecastDays | CHOPPER_Enhanced/script.js:89 | the forecast window is in [1, 7]: NaN or below 1 gives 1, 7 or more gives 7, and values in between are kept |
| Weather.AqiCategory | CHOPPER_Enhanced/script.js:117 | unknown iff the average is NaN; high iff ≥ 151; moderate iff ≥ 51 and below 151; low otherwise |
| Weather.PollenCategory | CHOPPER_Enhanced/script.js:112 | high iff ≥ 80, moderate iff ≥ 30 and below 80, otherwise low (NaN included), never unknown |
| Weather.PollenOutcome | CHOPPER_Enhanced/script.js:101-113 | pollen is unknown exactly when the pollen fetch failed; a successful fetch gives the category of its total by the thresholds 80 and 30 |
| Weather.SeriesMean | CHOPPER_Enhanced/script.js:116 | the mean of an empty series is 0, and otherwise the mean times the number of readings is their sum |
| Weather.MeanBetween | CHOPPER_Enhanced/script.js:116 | the mean of a non-empty series whose readings lie in [lo, hi] also lies in [lo, hi] |
| Weather.CategoriesMonotone | CHOPPER_Enhanced/script.js:112-117 | a larger average never gives a lower AQI or pollen category, and neither is unknown for a number |
| Weather.EmptyAqiSeriesIsLow | CHOPPER_Enhanced/script.js:115-117 | an empty hourly AQI series averages to 0 and is categorised low, not unknown |
| Weather.Normalize | CHOPPER_Enhanced/script.js:91-129 | the stored window is the clamped duration; the AQI category is high iff the samples' mean is ≥ 151, moderate iff it is in [51, 151), low iff it is below 51; pollen is unknown exactly without pollen data and otherwise the category of the total; the daily extremes are kept as fetched |
| Text.Lower | CHOPPER_Enhanced/script.js:216 | lower-casing keeps the length, maps each character, and leaves no A–Z |
| Text.IncludesIffOccurs | CHOPPER_Enhanced/script.js:217-219 | `includes` holds exactly when the pattern occurs at some index |
| Text.Trim | CHOPPER_Enhanced/script.js:221 | trimming removes exactly the leading and trailing white space: the result is a slice between an all-white-space prefix and suffix, and it neither starts nor ends with white space |
| Text.SplitOnSeparatorRuns | CHOPPER_Enhanced/script.js:221 | the split gives at least one piece, and no piece contains a comma or a semicolon |
| Text.SplitLosesOnlySeparators | CHOPPER_Enhanced/script.js:221 | the pieces joined back together are the input without its separators |
| Text.SplitSkipsRun | CHOPPER_Enhanced/script.js:221 | a run of several separators splits once, like a single separator |
| Text.SplitAfterWord | CHOPPER_Enhanced/script.js:221 | a separator-free word in front of the text joins the first piece |
| Session.Toggled | CHOPPER_Enhanced/script.js:49-50 | a click flips membership of the clicked token and leaves every other token as it was |
| Session.ToggleTwice | CHOPPER_Enhanced/script.js:49-50 | two clicks on the same chip restore the selection |
| Session.State.ToggleChip | CHOPPER_Enhanced/script.js:47-51 | the chip handler replaces the selection by its toggle |
| Session.KeywordTokensUnfold | CHOPPER_Enhanced/script.js:217-219 | the keyword tokens are exactly "fever", "wheezing" and "cough_blood", each added when its keyword occurs in the lower-cased text |
| Session.KeywordTokensMonotone | CHOPPER_Enhanced/script.js:217-219 | only the three keyword tokens come from the text, and more text never removes one |
| Session.KeywordIgnoresCase | CHOPPER_Enhanced/script.js:216-217 | "FEVER" yields exactly the fever token |
| Session.KeywordNeedsWholeWord | CHOPPER_Enhanced/script.js:218 | "Wheezy" does not contain the keyword "wheeze", so it yields no token |
| Session.State.AddKeywordTokens | CHOPPER_Enhanced/script.js:215-219 | the scan adds the keyword tokens to the selected ones and removes none |
| Session.TrimAll | CHOPPER_Enhanced/script.js:221 | the map trims every piece and keeps their number and order |
| Session.NonEmptyMembers | CHOPPER_Enhanced/script.js:221 | the filter keeps exactly the non-empty trimmed pieces |
| Session.ChronicEntriesClean | CHOPPER_Enhanced/script.js:220-221 | every chronic entry is non-empty and trimmed, with no separator and no upper-case letter, and made of characters of the lower-cased text |
| Session.State.CollectTokens | CHOPPER_Enhanced/script.js:214-223 | the tokens are the selected chips plus the keyword tokens; the chronic set gains exactly the chronic entries |
| Session.State.AddChronic | CHOPPER_Enhanced/script.js:221 | the chronic set gains exactly the listed entries |
| Session.State.StoreWeather | CHOPPER_Enhanced/script.js:92-135 | a successful fetch stores the normalised record; a failed fetch, or no location, keeps the previous one |
| Session.State.Analyze | CHOPPER_Enhanced/script.js:275-295 | the analysis is the specified recommendation on the selected and keyword tokens, the given vitals and the stored weather, and the chronic set is updated |

## Left out

- Rendering and navigation are not modelled: `setProgress`, `goStep`, `setTriageUI`, the `render*` functions, `buildLocalLinks` and the event wiring. The model returns the values they would display.
- Network I/O is not modelled: geolocation, geocoding, and the forecast, air-quality and pollen fetches. Their numeric results (hourly AQI samples, the pollen total, the daily apparent-temperature extremes) are parameters of `Session.State.StoreWeather`. A failed fetch, or a missing location, is the `None` outcome.
- The hourly averaging windows (`slice(0, 24*days)`) and the three-way pollen mean are not modelled. The model takes the selected AQI samples and the pollen total as given.
- `null` or non-numeric values inside the fetched series are not modelled. The AQI average is therefore always a finite number, so the unknown AQI category is unreachable in the stored record.
- Input parsing is not modelled: `Number(...)`, the Fahrenheit conversion of `toCelsius` and `getVitals`, and age parsing. The vitals record is given already parsed, with temperature in °C or `None`.
- Text.Lower: lower-cases only A–Z. JavaScript's `toLowerCase` also maps non-ASCII letters.
- Floating-point arithmetic: reals stand for JavaScript numbers. The band quotient is exact (see above).
- `state.coords` and `state.settings` are not part of this model. They only feed the fetches and the rendered links.
- The in-place `sort` and the in-place writes of `r.band` are modelled on a sequence held in a local variable. The array never escapes `scoreConditions` before it is sliced, so aliasing is not observable.
