/** Action memory: run counters, the feedback drawn from them, and the weight of the evidence. */
module ActionMemory {

  /** Nanoseconds; 0 is Go's zero time. */
  type Time = int

  const HOUR: int := 3_600_000_000_000

  datatype Recommendation = InsufficientData | AvoidAction | PreferAction | NeutralAction

  const MIN_SAMPLE_SIZE: int := 5
  const AVOID_FAILURE_THRESHOLD: real := 0.5
  const PREFER_SUCCESS_THRESHOLD: real := 0.7

  /** Run counters and the time of the latest run they cover. */
  datatype Stats = Stats(total: int, success: int, failure: int, neutral: int, latest: Time)

  const NOTHING := Stats(0, 0, 0, 0, 0)

  function Max(a: int, b: int): int {
    if b > a then b else a
  }

  function Plus(a: Stats, b: Stats): Stats {
    Stats(a.total + b.total, a.success + b.success, a.failure + b.failure, a.neutral + b.neutral,
          Max(a.latest, b.latest))
  }

  function Rate(count: int, total: int): real
    requires total != 0
  {
    count as real / total as real
  }

  /** The recommendation for a record with these rates. */
  function Recommend(total: int, successRate: real, failureRate: real): Recommendation {
    if total < MIN_SAMPLE_SIZE then InsufficientData
    else if failureRate >= AVOID_FAILURE_THRESHOLD then AvoidAction
    else if successRate >= PREFER_SUCCESS_THRESHOLD then PreferAction
    else NeutralAction
  }

  function Feedback(s: Stats): Recommendation
    requires s.total != 0
  {
    Recommend(s.total, Rate(s.success, s.total), Rate(s.failure, s.total))
  }

  /** What a recommendation says of `t` runs with `s` successes and `f` failures: too few below five;
      else avoid when at least half failed, prefer when less than half failed and at least seven tenths
      succeeded. */
  ghost predicate Says(rec: Recommendation, t: int, s: int, f: int) {
    && (rec == InsufficientData <==> t < 5)
    && (rec == AvoidAction <==> t >= 5 && 2 * f >= t)
    && (rec == PreferAction <==> t >= 5 && 2 * f < t && 10 * s >= 7 * t)
    && (rec == NeutralAction <==> t >= 5 && 2 * f < t && 10 * s < 7 * t)
  }

  lemma RateAtLeast(count: int, total: int, part: int, whole: int)
    requires total > 0 && whole > 0
    ensures Rate(count, total) >= part as real / whole as real <==> whole * count >= part * total
  {
    var c, t, p, w := count as real, total as real, part as real, whole as real;
    assert (c / t) * t == c && (p / w) * w == p;
    assert (c / t) * (t * w) == c * w && (p / w) * (t * w) == p * t;
    assert (whole * count) as real == w * c && (part * total) as real == p * t;
    var d := c / t - p / w;
    assert d * (t * w) == c * w - p * t;
    assert t * w > 0.0;
    if d >= 0.0 { assert d * (t * w) >= 0.0; } else { assert d * (t * w) < 0.0; }
  }

  /** The rates lead to the recommendation the counters call for. */
  lemma RecommendSays(t: int, s: int, f: int)
    requires t > 0
    ensures Says(Recommend(t, Rate(s, t), Rate(f, t)), t, s, f)
  {
    RateAtLeast(f, t, 1, 2);
    RateAtLeast(s, t, 7, 10);
  }

  lemma RateCounts(count: int, total: int)
    requires total > 0
    ensures Rate(count, total) * total as real == count as real
  {
  }

  /** On counters that add up, the avoid and the prefer condition exclude each other, so the order of
      the cases does not matter. */
  lemma AvoidAndPreferExclusive(s: Stats)
    requires s.total > 0 && s.neutral >= 0 && s.success + s.failure + s.neutral == s.total
    ensures !(Rate(s.failure, s.total) >= AVOID_FAILURE_THRESHOLD
              && Rate(s.success, s.total) >= PREFER_SUCCESS_THRESHOLD)
  {
  }

  // ---- Weights

  const FRESH := 1 * HOUR
  const RECENT := 24 * HOUR
  const MODERATE := 24 * 7 * HOUR

  function RecencyWeight(lastUpdated: Time, now: Time): real {
    if lastUpdated == 0 then 0.4
    else
      var age := now - lastUpdated;
      if age <= FRESH then 1.0
      else if age <= RECENT then 0.8
      else if age <= MODERATE then 0.6
      else 0.4
  }

  function SampleWeight(n: int): real {
    if n < 3 then 0.3
    else if n < 5 then 0.3 + (n - 3) as real / 2.0 * 0.3
    else if n < 10 then 0.6 + (n - 5) as real / 5.0 * 0.4
    else 1.0
  }

  /** The recency weight by the age of the latest evidence, in nanoseconds: an hour, a day, a week. */
  lemma RecencyTable(lastUpdated: Time, now: Time)
    ensures var w, age := RecencyWeight(lastUpdated, now), now - lastUpdated;
            && (w == 1.0 <==> lastUpdated != 0 && age <= 3_600_000_000_000)
            && (w == 0.8 <==> lastUpdated != 0 && 3_600_000_000_000 < age <= 86_400_000_000_000)
            && (w == 0.6 <==> lastUpdated != 0 && 86_400_000_000_000 < age <= 604_800_000_000_000)
            && (w == 0.4 <==> lastUpdated == 0 || 604_800_000_000_000 < age)
  {
  }

  /** The sample weight rises in equal steps from three runs to five, and from five to ten. */
  lemma SampleSteps(n: int)
    ensures n <= 3 ==> SampleWeight(n) == 0.3
    ensures 3 <= n < 5 ==> SampleWeight(n + 1) == SampleWeight(n) + 0.15
    ensures 5 <= n < 10 ==> SampleWeight(n + 1) == SampleWeight(n) + 0.08
    ensures n >= 10 ==> SampleWeight(n) == 1.0
  {
  }

  /** A square root on the non-negative reals. */
  ghost predicate IsSqrt(sqrt: real -> real) {
    forall x: real :: x >= 0.0 ==> sqrt(x) >= 0.0 && sqrt(x) * sqrt(x) == x
  }

  function EvidenceConfidence(sqrt: real -> real, recency: real, sample: real): real {
    sqrt(recency * sample)
  }

  lemma SampleWeightMonotone(m: int, n: int)
    requires m <= n
    ensures 0.3 <= SampleWeight(m) <= SampleWeight(n) <= 1.0
  {
  }

  /** Evidence reaching to a later time weighs no less; the zero time weighs least. */
  lemma RecencyWeightMonotone(a: Time, b: Time, now: Time)
    requires 0 <= a <= b
    ensures 0.4 <= RecencyWeight(a, now) <= RecencyWeight(b, now) <= 1.0
  {
  }

  lemma SqrtMonotone(sqrt: real -> real, x: real, y: real)
    requires IsSqrt(sqrt) && 0.0 <= x <= y
    ensures sqrt(x) <= sqrt(y)
  {
    if sqrt(x) > sqrt(y) { LargerSquare(sqrt(x), sqrt(y)); }
  }

  lemma LargerSquare(a: real, b: real)
    requires a > b >= 0.0
    ensures a * a > b * b
  {
    var d := a - b;
    assert d * d > 0.0 && b * d >= 0.0;
    assert a * a == b * b + 2.0 * (b * d) + d * d;
  }

  /** More runs and a later latest run never lower the confidence. */
  lemma ConfidenceMonotone(sqrt: real -> real, a: Stats, b: Stats, now: Time)
    requires IsSqrt(sqrt) && a.total <= b.total && 0 <= a.latest <= b.latest
    ensures EvidenceConfidence(sqrt, RecencyWeight(a.latest, now), SampleWeight(a.total))
         <= EvidenceConfidence(sqrt, RecencyWeight(b.latest, now), SampleWeight(b.total))
  {
    RecencyWeightMonotone(a.latest, b.latest, now);
    SampleWeightMonotone(a.total, b.total);
    ProductMonotone(RecencyWeight(a.latest, now), RecencyWeight(b.latest, now), SampleWeight(a.total),
                    SampleWeight(b.total));
    SqrtMonotone(sqrt, RecencyWeight(a.latest, now) * SampleWeight(a.total),
                 RecencyWeight(b.latest, now) * SampleWeight(b.total));
  }

  lemma ProductMonotone(r1: real, r2: real, s1: real, s2: real)
    requires 0.0 <= r1 <= r2 && 0.0 <= s1 <= s2
    ensures 0.0 <= r1 * s1 <= r2 * s2
  {
    assert (r2 - r1) * s1 >= 0.0 && r2 * (s2 - s1) >= 0.0;
    assert r2 * s2 == r1 * s1 + (r2 - r1) * s1 + r2 * (s2 - s1);
  }
}
