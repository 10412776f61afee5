/**
 * Web Vitals rating (frontend/src/lib/performance.ts): each metric has a
 * "good" and a "needs improvement" threshold, and a value is rated by the
 * first threshold it does not exceed.
 */
module Performance {

  datatype Metric = CLS | FCP | FID | INP | LCP | TTFB

  datatype Rating = Good | NeedsImprovement | Poor

  /** One entry of `PerformanceThresholds`. */
  datatype Thresholds = Thresholds(good: real, needsImprovement: real)

  /** `PerformanceThresholds[name]`: milliseconds, except the unitless layout shift. */
  function ThresholdsOf(m: Metric): Thresholds
  {
    match m
    case LCP => Thresholds(2500.0, 4000.0)
    case FID => Thresholds(100.0, 300.0)
    case CLS => Thresholds(0.1, 0.25)
    case FCP => Thresholds(1800.0, 3000.0)
    case INP => Thresholds(200.0, 500.0)
    case TTFB => Thresholds(800.0, 1800.0)
  }

  /** `getMetricRating`: good up to the first threshold, needs improvement up to the second, poor above. */
  function MetricRating(m: Metric, value: real): (r: Rating)
    ensures r == Good <==> value <= ThresholdsOf(m).good
    ensures r == NeedsImprovement <==> ThresholdsOf(m).good < value <= ThresholdsOf(m).needsImprovement
    ensures r == Poor <==> value > ThresholdsOf(m).needsImprovement
  {
    var t := ThresholdsOf(m);
    if value <= t.good then Good
    else if value <= t.needsImprovement then NeedsImprovement
    else Poor
  }

  /** How bad a rating is. */
  function Severity(r: Rating): nat
  {
    match r
    case Good => 0
    case NeedsImprovement => 1
    case Poor => 2
  }

  /** Every metric's first threshold lies strictly below its second, so all three ratings occur. */
  lemma ThresholdsOrdered(m: Metric)
    ensures 0.0 < ThresholdsOf(m).good < ThresholdsOf(m).needsImprovement
    ensures MetricRating(m, ThresholdsOf(m).good) == Good
    ensures MetricRating(m, ThresholdsOf(m).needsImprovement) == NeedsImprovement
  {
  }

  /** A smaller value never gets a worse rating. */
  lemma RatingMonotone(m: Metric, v1: real, v2: real)
    requires v1 <= v2
    ensures Severity(MetricRating(m, v1)) <= Severity(MetricRating(m, v2))
  {
    ThresholdsOrdered(m);
  }
}
