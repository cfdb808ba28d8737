/**
 * The environmental context: the forecast window, the AQI and pollen categories and the
 * daily apparent-temperature extremes. The three network fetches that feed it are not
 * modelled; their numeric outputs are the parameters here.
 */
module Weather {
  import opened Options

  /** A JavaScript number as produced by `Number(...)`: NaN, a finite value or an infinity. */
  datatype JsNumber = NaN | Finite(value: real) | PositiveInfinity | NegativeInfinity

  /** JavaScript's `n >= bound` for a finite bound (every comparison with NaN is false). */
  predicate AtLeast(n: JsNumber, bound: real) {
    match n
    case NaN => false
    case Finite(x) => x >= bound
    case PositiveInfinity => true
    case NegativeInfinity => false
  }

  /** JavaScript's `n < bound` for a finite bound. */
  predicate Below(n: JsNumber, bound: real) {
    match n
    case NaN => false
    case Finite(x) => x < bound
    case PositiveInfinity => false
    case NegativeInfinity => true
  }

  /**
   * `getDurationDays`: NaN and anything below one give one day, anything above seven gives
   * seven, and a value in between is kept as it is (fractions included).
   */
  function ForecastDays(d: JsNumber): (days: real)
    ensures 1.0 <= days <= 7.0
    ensures d.NaN? || Below(d, 1.0) ==> days == 1.0
    ensures AtLeast(d, 7.0) ==> days == 7.0
    ensures d.Finite? && 1.0 <= d.value <= 7.0 ==> days == d.value
  {
    if d.NaN? || Below(d, 1.0) then 1.0
    else match d
      case Finite(x) => if x < 7.0 then x else 7.0
      case _ => 7.0
  }

  /** A category of a numeric reading. */
  datatype Category = Low | Moderate | High | Unknown

  /** The order low < moderate < high (unknown is not ranked). */
  function CategoryRank(c: Category): int {
    match c
    case Low => 0
    case Moderate => 1
    case High => 2
    case Unknown => -1
  }

  /** The order of JavaScript numbers other than NaN: -Infinity, then the reals, then +Infinity. */
  predicate NumberLessEq(a: JsNumber, b: JsNumber)
    requires !a.NaN? && !b.NaN?
  {
    match (a, b)
    case (NegativeInfinity, _) => true
    case (_, PositiveInfinity) => true
    case (Finite(x), Finite(y)) => x <= y
    case _ => false
  }

  /** The sum of a series of hourly readings. */
  function Sum(xs: seq<real>): real {
    if xs == [] then 0.0 else Sum(xs[..|xs| - 1]) + xs[|xs| - 1]
  }

  /** `arr.reduce((a,b)=>a+b,0)/(arr.length||1)`: the mean, and 0 for an empty series. */
  function SeriesMean(xs: seq<real>): (m: real)
    ensures xs == [] ==> m == 0.0
    ensures xs != [] ==> m * |xs| as real == Sum(xs)
  {
    Sum(xs) / (if |xs| == 0 then 1 else |xs|) as real
  }

  /** A series whose readings all lie in `[lo, hi]` sums to between `|xs|·lo` and `|xs|·hi`. */
  lemma {:induction false} SumBetween(xs: seq<real>, lo: real, hi: real)
    requires forall i :: 0 <= i < |xs| ==> lo <= xs[i] <= hi
    ensures |xs| as real * lo <= Sum(xs) <= |xs| as real * hi
  {
    if xs != [] {
      var init := xs[..|xs| - 1];
      assert forall i :: 0 <= i < |init| ==> init[i] == xs[i];
      SumBetween(init, lo, hi);
      assert |xs| as real * lo == |init| as real * lo + lo;
      assert |xs| as real * hi == |init| as real * hi + hi;
    }
  }

  /** The mean of a non-empty series lies between its smallest and largest possible reading. */
  lemma MeanBetween(xs: seq<real>, lo: real, hi: real)
    requires xs != [] && forall i :: 0 <= i < |xs| ==> lo <= xs[i] <= hi
    ensures lo <= SeriesMean(xs) <= hi
  {
    SumBetween(xs, lo, hi);
    var n, m := |xs| as real, SeriesMean(xs);
    assert m * n == Sum(xs);
    CancelPositive(lo, m, n);
    CancelPositive(m, hi, n);
  }

  /** Multiplying by a positive factor keeps the order. */
  lemma CancelPositive(a: real, b: real, n: real)
    requires n > 0.0 && n * a <= b * n
    ensures a <= b
  {
  }

  /** The AQI category of an average: NaN is unknown, at least 151 high, at least 51 moderate, else low. */
  function AqiCategory(average: JsNumber): (c: Category)
    ensures c == Unknown <==> average.NaN?
    ensures c == High <==> AtLeast(average, 151.0)
    ensures c == Moderate <==> AtLeast(average, 51.0) && !AtLeast(average, 151.0)
    ensures c == Low <==> !average.NaN? && !AtLeast(average, 51.0)
  {
    if average.NaN? then Unknown
    else if AtLeast(average, 151.0) then High
    else if AtLeast(average, 51.0) then Moderate
    else Low
  }

  /**
   * The pollen category of the mean of the three pollen-type means: at least 80 high, at
   * least 30 moderate, otherwise (NaN included) low.
   */
  function PollenCategory(total: JsNumber): (c: Category)
    ensures c != Unknown
    ensures c == High <==> AtLeast(total, 80.0)
    ensures c == Moderate <==> AtLeast(total, 30.0) && !AtLeast(total, 80.0)
  {
    if AtLeast(total, 80.0) then High
    else if AtLeast(total, 30.0) then Moderate
    else Low
  }

  /** The pollen category after the best-effort fetch: `None` when that fetch failed. */
  function PollenOutcome(total: Option<JsNumber>): (c: Category)
    ensures c == Unknown <==> total.None?
    ensures total.Some? ==> c == PollenCategory(total.value)
  {
    match total
    case None => Unknown
    case Some(t) => PollenCategory(t)
  }

  /** Both categorisations are monotone: a larger average never gives a lower category. */
  lemma CategoriesMonotone(a: JsNumber, b: JsNumber)
    requires !a.NaN? && !b.NaN? && NumberLessEq(a, b)
    ensures CategoryRank(AqiCategory(a)) <= CategoryRank(AqiCategory(b))
    ensures CategoryRank(PollenCategory(a)) <= CategoryRank(PollenCategory(b))
    ensures CategoryRank(AqiCategory(a)) >= 0 && CategoryRank(PollenCategory(a)) >= 0
  {
  }

  /** With no hourly AQI samples the average is 0, so the category is low, not unknown. */
  lemma EmptyAqiSeriesIsLow()
    ensures AqiCategory(Finite(SeriesMean([]))) == Low
  {
  }

  /**
   * The weather record kept after a successful fetch. `dailyMax`/`dailyMin` are the daily
   * apparent-temperature extremes in degrees Celsius, one per forecast day; they are empty
   * when the forecast did not include them.
   */
  datatype WeatherContext = WeatherContext(
    days: real,
    aqi: Category,
    pollen: Category,
    dailyMax: seq<real>,
    dailyMin: seq<real>)

  /** The record `fetchWeatherForDuration` stores, built from the fetched numbers. */
  function Normalize(
    duration: JsNumber, aqiSamples: seq<real>, pollenTotal: Option<JsNumber>,
    dailyMax: seq<real>, dailyMin: seq<real>): (w: WeatherContext)
    ensures w.days == ForecastDays(duration) && 1.0 <= w.days <= 7.0
    ensures w.aqi != Unknown
    ensures var m := SeriesMean(aqiSamples);
      (w.aqi == High <==> m >= 151.0)
      && (w.aqi == Moderate <==> 51.0 <= m < 151.0)
      && (w.aqi == Low <==> m < 51.0)
    ensures w.pollen == Unknown <==> pollenTotal.None?
    ensures pollenTotal.Some? ==> w.pollen == PollenCategory(pollenTotal.value)
    ensures w.dailyMax == dailyMax && w.dailyMin == dailyMin
  {
    WeatherContext(ForecastDays(duration), AqiCategory(Finite(SeriesMean(aqiSamples))),
                   PollenOutcome(pollenTotal), dailyMax, dailyMin)
  }
}
