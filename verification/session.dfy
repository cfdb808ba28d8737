/**
 * The page's mutable state (`state`): the selected symptom chips, the chronic conditions
 * collected so far and the last weather record, with the operations that change them:
 * toggling a chip, collecting tokens from the free-text fields, storing fetched weather,
 * and running the analysis.
 */
module Session {
  import opened Options
  import opened Inputs
  import opened Text
  import opened Weather
  import opened Triage

  // ---------------------------------------------------------------------------
  // Chips

  /** The chip set after one click on the chip for `t`. */
  function Toggled(s: set<Token>, t: Token): (r: set<Token>)
    ensures t in r <==> t !in s
    ensures forall u :: u != t ==> (u in r <==> u in s)
  {
    if t in s then s - {t} else s + {t}
  }

  /** Two clicks on the same chip leave the selection as it was. */
  lemma ToggleTwice(s: set<Token>, t: Token)
    ensures Toggled(Toggled(s, t), t) == s
  {
    var once := Toggled(s, t);
    var twice := Toggled(once, t);
    forall u ensures u in twice <==> u in s {
      if u == t {
        assert t in twice <==> t !in once;
      }
    }
  }

  // ---------------------------------------------------------------------------
  // Keywords in the free text

  /** The keywords looked for in the lower-cased free text, with the token each one adds. */
  const Keywords: seq<(string, Token)> := [("fever", "fever"), ("wheeze", "wheezing"), ("bleed", "cough_blood")]

  /** The tokens whose keyword occurs in the lower-cased text. */
  function KeywordTokens(text: string): set<Token> {
    set k | 0 <= k < |Keywords| && Includes(Lower(text), Keywords[k].0) :: Keywords[k].1
  }

  /** The table read rule by rule. */
  lemma KeywordTokensUnfold(text: string)
    ensures var low := Lower(text);
      KeywordTokens(text)
        == (if Includes(low, "fever") then {"fever"} else {})
         + (if Includes(low, "wheeze") then {"wheezing"} else {})
         + (if Includes(low, "bleed") then {"cough_blood"} else {})
  {
    var low := Lower(text);
    assert Keywords[0] == ("fever", "fever") && Keywords[1] == ("wheeze", "wheezing")
        && Keywords[2] == ("bleed", "cough_blood");
  }

  /** Lower-casing distributes over concatenation. */
  lemma LowerAppend(a: string, b: string)
    ensures Lower(a + b) == Lower(a) + Lower(b)
  {
    assert forall i :: 0 <= i < |a + b| ==> Lower(a + b)[i] == (Lower(a) + Lower(b))[i];
  }

  /**
   * Only the three keyword tokens can come from the text, and adding text before or after
   * never takes one away.
   */
  lemma KeywordTokensMonotone(a: string, b: string)
    ensures KeywordTokens(a) <= {"fever", "wheezing", "cough_blood"}
    ensures KeywordTokens(a) <= KeywordTokens(a + b)
    ensures KeywordTokens(a) <= KeywordTokens(b + a)
  {
    LowerAppend(a, b);
    LowerAppend(b, a);
    forall k | 0 <= k < |Keywords| && Includes(Lower(a), Keywords[k].0)
      ensures Includes(Lower(a + b), Keywords[k].0) && Includes(Lower(b + a), Keywords[k].0)
    {
      IncludesExtend(Lower(a), Lower(b), Keywords[k].0);
    }
  }

  /** A keyword is found whatever the case it is typed in. */
  lemma KeywordIgnoresCase()
    ensures KeywordTokens("FEVER") == {"fever"}
  {
    var low := Lower("FEVER");
    assert low == "fever";
    IncludesNeedsFirstChar(low, "wheeze");
    IncludesNeedsFirstChar(low, "bleed");
    KeywordTokensUnfold("FEVER");
  }

  /** A keyword counts only when spelled out in full. */
  lemma KeywordNeedsWholeWord()
    ensures KeywordTokens("Wheezy") == {}
  {
    var w := Lower("Wheezy");
    assert w == "wheezy";
    IncludesNeedsFirstChar(w, "fever");
    IncludesNeedsFirstChar(w, "bleed");
    IncludesTooShort(w[1..], "wheeze");
    assert !("wheeze" <= w) by {
      assert w[5] != "wheeze"[5];
    }
    assert !Includes(w, "wheeze");
    KeywordTokensUnfold("Wheezy");
  }

  // ---------------------------------------------------------------------------
  // Chronic conditions

  /** Every piece trimmed (`.map(s => s.trim())`). */
  function TrimAll(pieces: seq<string>): (r: seq<string>)
    ensures |r| == |pieces| && forall k :: 0 <= k < |pieces| ==> r[k] == Trim(pieces[k])
  {
    seq(|pieces|, k requires 0 <= k < |pieces| => Trim(pieces[k]))
  }

  /** The non-empty strings, in order (`.filter(Boolean)`). */
  function NonEmpty(xs: seq<string>): (r: seq<string>)
    ensures |r| <= |xs|
  {
    if xs == [] then []
    else (if xs[0] == "" then [] else [xs[0]]) + NonEmpty(xs[1..])
  }

  /** The entries of the chronic-conditions field, lower-cased and split on runs of commas and semicolons. */
  function ChronicEntries(text: string): seq<string> {
    NonEmpty(TrimAll(SplitOnSeparatorRuns(Lower(text))))
  }

  /** The filter keeps exactly the non-empty strings. */
  lemma {:induction false} NonEmptyMembers(xs: seq<string>, e: string)
    ensures e in NonEmpty(xs) <==> e in xs && e != ""
  {
    if xs != [] {
      NonEmptyMembers(xs[1..], e);
      assert xs == [xs[0]] + xs[1..];
    }
  }

  lemma TrimKeepsChar(s: string, c: char)
    requires c in Trim(s)
    ensures c in s
  {
  }

  lemma PieceChar(s: string, k: nat, c: char)
    requires k < |SplitOnSeparatorRuns(s)| && c in SplitOnSeparatorRuns(s)[k]
    ensures !IsSeparator(c) && c in s
  {
  }

  /** One entry of the chronic field is clean: see `ChronicEntriesClean`. */
  lemma ChronicEntryClean(text: string, e: string)
    requires e in ChronicEntries(text)
    ensures e != "" && Trimmed(e)
    ensures forall c :: c in e ==> !IsSeparator(c) && !('A' <= c <= 'Z') && c in Lower(text)
  {
    var low := Lower(text);
    var pieces := SplitOnSeparatorRuns(low);
    var trimmed := TrimAll(pieces);
    NonEmptyMembers(trimmed, e);
    var k :| 0 <= k < |trimmed| && e == trimmed[k];
    forall c | c in e ensures !IsSeparator(c) && !('A' <= c <= 'Z') && c in low {
      TrimKeepsChar(pieces[k], c);
      PieceChar(low, k, c);
    }
  }

  /**
   * Every chronic entry is non-empty, has no white space at either end, contains no
   * separator and no upper-case letter, and each of its characters is one of the lower-cased text's.
   */
  lemma ChronicEntriesClean(text: string)
    ensures forall e :: e in ChronicEntries(text) ==>
      e != "" && Trimmed(e)
      && forall c :: c in e ==> !IsSeparator(c) && !('A' <= c <= 'Z') && c in Lower(text)
  {
    forall e | e in ChronicEntries(text)
      ensures e != "" && Trimmed(e)
        && forall c :: c in e ==> !IsSeparator(c) && !('A' <= c <= 'Z') && c in Lower(text)
    {
      ChronicEntryClean(text, e);
    }
  }

  // ---------------------------------------------------------------------------
  // Weather fetch

  /** The numbers a weather fetch returns: hourly AQI samples, the pollen total if the pollen fetch worked, and the daily extremes. */
  datatype Fetched = Fetched(aqiSamples: seq<real>, pollenTotal: Option<JsNumber>, dailyMax: seq<real>, dailyMin: seq<real>)

  // ---------------------------------------------------------------------------
  // The state

  class State {
    var symptoms: set<Token>
    var chronic: set<string>
    var weather: Option<WeatherContext>

    /** Nothing selected, nothing collected, no weather. */
    constructor()
      ensures symptoms == {} && chronic == {} && weather == None
    {
      symptoms, chronic, weather := {}, {}, None;
    }

    /** A click on the chip for `t`: it is removed if selected and added otherwise. */
    method ToggleChip(t: Token)
      modifies this`symptoms
      ensures symptoms == Toggled(old(symptoms), t)
      ensures t in symptoms <==> t !in old(symptoms)
    {
      if t in symptoms {
        symptoms := symptoms - {t};
      } else {
        symptoms := symptoms + {t};
      }
    }

    /**
     * `collectTokens`: the selected chips plus the keyword tokens of the free text; every
     * entry of the chronic field is added to the chronic set.
     */
    method CollectTokens(freeText: string, chronicText: string) returns (tokens: set<Token>)
      modifies this`chronic
      ensures tokens == old(symptoms) + KeywordTokens(freeText)
      ensures chronic == old(chronic) + ListSet(ChronicEntries(chronicText))
    {
      tokens := AddKeywordTokens(symptoms, freeText);
      AddChronic(ChronicEntries(chronicText));
    }

    /** The three keyword tests of `collectTokens`, adding to `tokens`. */
    static method AddKeywordTokens(tokens: set<Token>, freeText: string) returns (r: set<Token>)
      ensures r == tokens + KeywordTokens(freeText)
    {
      r := tokens;
      var text := Lower(freeText);
      if Includes(text, "fever") {
        r := r + {"fever"};
      }
      if Includes(text, "wheeze") {
        r := r + {"wheezing"};
      }
      if Includes(text, "bleed") {
        r := r + {"cough_blood"};
      }
      KeywordTokensUnfold(freeText);
    }

    /** `.forEach(x => state.chronic.add(x))`. */
    method AddChronic(entries: seq<string>)
      modifies this`chronic
      ensures chronic == old(chronic) + ListSet(entries)
    {
      for i := 0 to |entries|
        invariant chronic == old(chronic) + ListSet(entries[..i])
      {
        assert entries[..i + 1] == entries[..i] + [entries[i]];
        ListSetSnoc(entries[..i], entries[i]);
        chronic := chronic + {entries[i]};
      }
      assert entries[..|entries|] == entries;
    }

    /**
     * The end of `fetchWeatherForDuration`: a successful fetch replaces the record with the
     * normalised one; a failed fetch, or none for lack of a location, keeps the old one.
     */
    method StoreWeather(duration: JsNumber, outcome: Option<Fetched>)
      modifies this`weather
      ensures outcome.None? ==> weather == old(weather)
      ensures outcome.Some? ==>
        weather == Some(Normalize(duration, outcome.value.aqiSamples, outcome.value.pollenTotal,
                                  outcome.value.dailyMax, outcome.value.dailyMin))
    {
      if outcome.Some? {
        var f := outcome.value;
        weather := Some(Normalize(duration, f.aqiSamples, f.pollenTotal, f.dailyMax, f.dailyMin));
      }
    }

    /** `analyze`: collect the tokens, then decide on them with the given vitals and the stored weather. */
    method Analyze(freeText: string, chronicText: string, vitals: Vitals) returns (rec: Recommendation)
      modifies this`chronic
      ensures rec == Evaluate(old(symptoms) + KeywordTokens(freeText), vitals, weather)
      ensures chronic == old(chronic) + ListSet(ChronicEntries(chronicText))
    {
      var tokens := CollectTokens(freeText, chronicText);
      rec := Triage.Analyze(tokens, vitals, weather);
    }
  }
}
