/** What the triage engine is given: symptom tokens and the vitals record. */
module Inputs {
  import opened Options

  /** A symptom token such as "chest_pain"; tokens are collected into a set. */
  type Token = string

  /**
   * The vitals record built from the form. Every field is a JavaScript number that has
   * already been parsed: `temperature` is in degrees Celsius and is `None` when the input
   * did not parse; `duration` falls back to 0 when it did not parse and is otherwise
   * whatever number was typed (it may be fractional or negative).
   */
  datatype Vitals = Vitals(age: Option<real>, temperature: Option<real>, duration: real)

  /** The distinct members of a list of strings. */
  function ListSet(list: seq<string>): set<string> {
    set t | t in list
  }

  /** Appending one string adds just that string. */
  lemma ListSetSnoc(list: seq<string>, x: string)
    ensures ListSet(list + [x]) == ListSet(list) + {x}
  {
    assert forall t :: t in list + [x] <==> t in list || t == x;
  }
}
