/** What the scorer emits for one condition. */
module Results {
  import opened Options
  import opened Inputs

  /** The relative-likelihood band, highest first. */
  datatype Band = Higher | Medium | Lower

  /** Higher ranks 2, medium 1, lower 0. */
  function BandRank(b: Band): nat {
    match b
    case Higher => 2
    case Medium => 1
    case Lower => 0
  }

  /**
   * A scored condition. `band` is `None` while the entry is being collected and is set on
   * every entry once the list is sorted, as the source writes `r.band` in place.
   */
  datatype Scored = Scored(
    id: string,
    name: string,
    score: int,
    why: seq<Token>,
    advice: seq<string>,
    monitor: seq<string>,
    escalate: string,
    band: Option<Band>)
}
