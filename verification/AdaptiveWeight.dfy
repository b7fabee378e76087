/**
 Adaptive origin weights: a sliding window of (latency, error) samples per origin turns the static
 weight into an effective one.  Floating point is modelled over `real`; times are milliseconds.
 */
module AdaptiveWeight {
  import opened Wrappers

  datatype Sample = Sample(latency: real, error: bool)

  datatype Thresholds = Thresholds(latencyMs: real, errorRate: real)

  datatype Stats = Stats(samples: seq<Sample>, windowSize: nat, lastUpdate: nat)

  // ------------------------------------------------------------------------------------------
  // Order statistics.

  function CountBelow(xs: seq<real>, v: real): (r: nat)
    ensures r <= |xs|
  {
    if xs == [] then 0 else (if xs[0] < v then 1 else 0) + CountBelow(xs[1..], v)
  }

  function CountUpTo(xs: seq<real>, v: real): (r: nat)
    ensures r <= |xs|
  {
    if xs == [] then 0 else (if xs[0] <= v then 1 else 0) + CountUpTo(xs[1..], v)
  }

  /** v is the element at position k once xs is sorted. */
  ghost predicate OrderStatistic(xs: seq<real>, k: nat, v: real) {
    CountBelow(xs, v) <= k < CountUpTo(xs, v)
  }

  lemma {:induction false} CountsGrow(xs: seq<real>, v: real, w: real)
    requires v < w
    ensures CountUpTo(xs, v) <= CountBelow(xs, w)
  {
    if xs != [] { CountsGrow(xs[1..], v, w); }
  }

  ghost predicate Pointwise(xs: seq<real>, ys: seq<real>) {
    |xs| == |ys| && forall i | 0 <= i < |xs| :: xs[i] <= ys[i]
  }

  lemma {:induction false} SlowerCountsLess(xs: seq<real>, ys: seq<real>, v: real)
    requires Pointwise(xs, ys)
    ensures CountUpTo(ys, v) <= CountUpTo(xs, v)
  {
    if xs != [] { SlowerCountsLess(xs[1..], ys[1..], v); }
  }

  /** Order statistics are monotone: raising every entry raises each of them. */
  lemma {:induction false} OrderStatisticsMonotone(xs: seq<real>, ys: seq<real>, k: nat, v: real, w: real)
    requires Pointwise(xs, ys) && OrderStatistic(xs, k, v) && OrderStatistic(ys, k, w)
    ensures v <= w
  {
    if w < v {
      SlowerCountsLess(xs, ys, w);
      CountsGrow(xs, w, v);
    }
  }

  // ------------------------------------------------------------------------------------------
  // Sorting, for the percentile.

  ghost predicate Sorted(xs: seq<real>) {
    forall i, j | 0 <= i < j < |xs| :: xs[i] <= xs[j]
  }

  function Insert(xs: seq<real>, v: real): (r: seq<real>)
    requires Sorted(xs)
    ensures Sorted(r) && |r| == |xs| + 1
    ensures r[0] == if xs == [] || v <= xs[0] then v else xs[0]
  {
    if xs == [] || v <= xs[0] then [v] + xs else [xs[0]] + Insert(xs[1..], v)
  }

  function Sort(xs: seq<real>): (r: seq<real>)
    ensures Sorted(r) && |r| == |xs|
  {
    if xs == [] then [] else Insert(Sort(xs[1..]), xs[0])
  }

  lemma {:induction false} InsertCounts(xs: seq<real>, v: real, w: real)
    requires Sorted(xs)
    ensures CountBelow(Insert(xs, v), w) == CountBelow(xs, w) + if v < w then 1 else 0
    ensures CountUpTo(Insert(xs, v), w) == CountUpTo(xs, w) + if v <= w then 1 else 0
  {
    if xs == [] || v <= xs[0] {
      assert ([v] + xs)[1..] == xs;
    } else {
      InsertCounts(xs[1..], v, w);
      assert Insert(xs, v)[1..] == Insert(xs[1..], v);
    }
  }

  lemma {:induction false} SortCounts(xs: seq<real>, w: real)
    ensures CountBelow(Sort(xs), w) == CountBelow(xs, w) && CountUpTo(Sort(xs), w) == CountUpTo(xs, w)
  {
    if xs != [] {
      SortCounts(xs[1..], w);
      InsertCounts(Sort(xs[1..]), xs[0], w);
    }
  }

  /** A sorted sequence has at most k entries below its k-th and more than k up to it. */
  lemma {:induction false} SortedPosition(xs: seq<real>, k: nat)
    requires Sorted(xs) && k < |xs|
    ensures OrderStatistic(xs, k, xs[k])
  {
    if k == 0 {
      NoneBelow(xs, xs[0]);
    } else {
      SortedPosition(xs[1..], k - 1);
    }
  }

  lemma {:induction false} NoneBelow(xs: seq<real>, v: real)
    requires forall i | 0 <= i < |xs| :: v <= xs[i]
    ensures CountBelow(xs, v) == 0
  {
    if xs != [] { NoneBelow(xs[1..], v); }
  }

  // ------------------------------------------------------------------------------------------
  // The percentile.

  function Latencies(samples: seq<Sample>): (r: seq<real>) {
    seq(|samples|, i requires 0 <= i < |samples| => samples[i].latency)
  }

  function Ceiling(x: real): int { -((-x).Floor) }

  function ShareOf(n: nat, pct: real): real { n as real * pct }

  /** The rounded-up share of n, less one, kept within 0 and n - 1. */
  function Rank(n: nat, pct: real): (r: nat)
    requires n > 0
    ensures r < n
  {
    var up := Ceiling(ShareOf(n, pct));
    if up <= 1 then 0 else if up - 1 < n then up - 1 else n - 1
  }

  function PercentileLatency(samples: seq<Sample>, pct: real): real
    requires samples != []
  {
    Sort(Latencies(samples))[Rank(|samples|, pct)]
  }

  lemma {:induction false} PercentileIsOrderStatistic(samples: seq<Sample>, pct: real)
    requires samples != []
    ensures OrderStatistic(Latencies(samples), Rank(|samples|, pct), PercentileLatency(samples, pct))
  {
    var xs := Latencies(samples);
    var v := PercentileLatency(samples, pct);
    SortedPosition(Sort(xs), Rank(|samples|, pct));
    SortCounts(xs, v);
  }

  /** Nearest rank: the least value such that at least the share pct of the samples is up to it. */
  lemma {:induction false} PercentileIsNearestRank(samples: seq<Sample>, pct: real)
    requires samples != [] && 0.0 < pct <= 1.0
    ensures var share, v := ShareOf(|samples|, pct), PercentileLatency(samples, pct);
            CountBelow(Latencies(samples), v) as real < share <= CountUpTo(Latencies(samples), v) as real
  {
    hide PercentileLatency, Latencies, Rank, ShareOf, CountBelow, CountUpTo;
    PercentileIsOrderStatistic(samples, pct);
    RankBounds(|samples|, pct);
  }

  lemma {:induction false} RankBounds(n: nat, pct: real)
    requires n > 0 && 0.0 < pct <= 1.0
    ensures Rank(n, pct) as real < ShareOf(n, pct) <= (Rank(n, pct) + 1) as real
  {
    ProductSign(pct, n as real);
    ScaledDown(pct, n as real);
    assert pct * n as real == n as real * pct;
    CeilingBounds(ShareOf(n, pct));
  }

  lemma {:induction false} CeilingBounds(x: real)
    ensures (Ceiling(x) - 1) as real < x <= Ceiling(x) as real
  {
  }

  // ------------------------------------------------------------------------------------------
  // The multiplier.

  /** 1 up to low, 1/10 from high on, a straight line between. */
  function Penalty(value: real, low: real, high: real): (r: real)
    ensures 0.1 <= r <= 1.0
    ensures r == 1.0 <==> value <= low
    ensures r == 0.1 <==> value > low && value >= high
  {
    if value <= low then 1.0
    else if value >= high then 0.1
    else
      LineWithin(value - low, high - low);
      1.0 - 0.9 * (value - low) / (high - low)
  }

  lemma {:induction false} ProductSign(a: real, b: real)
    requires b > 0.0
    ensures a > 0.0 <==> a * b > 0.0
    ensures a < 0.0 <==> a * b < 0.0
  {
  }

  lemma {:induction false} LineWithin(x: real, y: real)
    requires 0.0 < x < y
    ensures 0.0 < (0.9 * x) / y < 0.9
  {
    var q := (0.9 * x) / y;
    assert q * y == 0.9 * x;
    ProductSign(q, y);
    ProductSign(0.9 - q, y);
  }

  lemma {:induction false} QuotientMonotone(x: real, x': real, y: real)
    requires x <= x' && 0.0 < y
    ensures x / y <= x' / y
  {
    var q, q' := x / y, x' / y;
    assert q * y == x && q' * y == x';
    ProductSign(q - q', y);
  }

  /** More of the penalised quantity never raises the factor, for any thresholds. */
  lemma {:induction false} PenaltyAntitone(v: real, w: real, low: real, high: real)
    requires v <= w
    ensures Penalty(w, low, high) <= Penalty(v, low, high)
  {
    if low < v && w < high { QuotientMonotone(0.9 * (v - low), 0.9 * (w - low), high - low); }
  }

  /** The line: a fraction t of the way from low to high costs 0.9 * t. */
  lemma {:induction false} PenaltyIsLinear(t: real, low: real, width: real)
    requires 0.0 < t < 1.0 && 0.0 < width
    ensures Penalty(low + t * width, low, low + width) == 1.0 - 0.9 * t
  {
    ProductSign(t, width);
    ScaledDown(t, width);
    Cancels(t, width);
  }

  lemma {:induction false} Cancels(q: real, y: real)
    requires y > 0.0
    ensures 0.9 * (q * y) / y == 0.9 * q
  {
    var r := 0.9 * (q * y) / y;
    assert r * y == 0.9 * (q * y) == 0.9 * q * y;
    ProductSign(r - 0.9 * q, y);
  }

  function ErrorCount(samples: seq<Sample>): (r: nat)
    ensures r <= |samples|
  {
    if samples == [] then 0 else (if samples[0].error then 1 else 0) + ErrorCount(samples[1..])
  }

  function Errors(samples: seq<Sample>): (r: seq<bool>) {
    seq(|samples|, i requires 0 <= i < |samples| => samples[i].error)
  }

  lemma {:induction false} ErrorCountIs(samples: seq<Sample>)
    ensures ErrorCount(samples) == multiset(Errors(samples))[true]
  {
    if samples != [] {
      ErrorCountIs(samples[1..]);
      assert Errors(samples) == [samples[0].error] + Errors(samples[1..]);
    }
  }

  function ErrorRate(samples: seq<Sample>): (r: real)
    requires samples != []
  {
    ErrorCount(samples) as real / |samples| as real
  }

  function LatencyFactor(samples: seq<Sample>, config: Thresholds): (r: real)
    ensures 0.1 <= r <= 1.0
  {
    if |samples| < 10 then 1.0
    else Penalty(PercentileLatency(samples, 0.99), config.latencyMs, config.latencyMs * 4.0)
  }

  function ErrorFactor(samples: seq<Sample>, config: Thresholds): (r: real)
    requires samples != []
    ensures 0.1 <= r <= 1.0
  {
    Penalty(ErrorRate(samples), config.errorRate, config.errorRate * 4.0)
  }

  function ComputeMultiplier(samples: seq<Sample>, config: Thresholds): real
    requires samples != []
  {
    LatencyFactor(samples, config) * ErrorFactor(samples, config)
  }

  ghost predicate Exceeds(value: real, low: real) { value > low && value >= 4.0 * low }

  lemma {:induction false} ScaledDown(a: real, b: real)
    requires a <= 1.0 && b > 0.0
    ensures a * b <= b && (a < 1.0 ==> a * b < b)
  {
    ProductSign(1.0 - a, b);
    assert (1.0 - a) * b == b - a * b;
  }

  lemma {:induction false} ScaledUp(a: real, b: real)
    requires a >= 0.1 && b > 0.0
    ensures a * b >= 0.1 * b && (a > 0.1 ==> a * b > 0.1 * b)
  {
    ProductSign(a - 0.1, b);
    assert (a - 0.1) * b == a * b - 0.1 * b;
  }

  lemma {:induction false} ProductBounds(a: real, b: real)
    requires 0.1 <= a <= 1.0 && 0.1 <= b <= 1.0
    ensures 0.01 <= a * b <= 1.0
    ensures a * b == 1.0 <==> a == 1.0 && b == 1.0
    ensures a * b == 0.01 <==> a == 0.1 && b == 0.1
  {
    ScaledDown(a, b);
    ScaledUp(a, b);
  }

  /**
   The multiplier lies in [1/100, 1].  It is 1 exactly when neither threshold is passed, and 1/100
   exactly when both quantities reach four times their threshold.
   */
  lemma {:induction false} MultiplierBounds(samples: seq<Sample>, config: Thresholds)
    requires samples != []
    ensures 0.01 <= ComputeMultiplier(samples, config) <= 1.0
    ensures ComputeMultiplier(samples, config) == 1.0
       <==> (|samples| < 10 || PercentileLatency(samples, 0.99) <= config.latencyMs)
            && ErrorRate(samples) <= config.errorRate
    ensures ComputeMultiplier(samples, config) == 0.01
       <==> |samples| >= 10 && Exceeds(PercentileLatency(samples, 0.99), config.latencyMs)
            && Exceeds(ErrorRate(samples), config.errorRate)
  {
    hide PercentileLatency, ErrorRate;
    ProductBounds(LatencyFactor(samples, config), ErrorFactor(samples, config));
  }

  /** f is the factor owed by a value: 1 up to the threshold, 1/10 from four times it, linear between. */
  ghost predicate Owes(value: real, threshold: real, f: real) {
    && (value <= threshold ==> f == 1.0)
    && (value > threshold && value >= 4.0 * threshold ==> f == 0.1)
    && (threshold < value < 4.0 * threshold ==> f * (3.0 * threshold) == 3.0 * threshold - 0.9 * (value - threshold))
  }

  lemma {:induction false} PenaltyOwes(value: real, threshold: real)
    ensures Owes(value, threshold, Penalty(value, threshold, threshold * 4.0))
  {
    if threshold < value < 4.0 * threshold {
      var x, y := 0.9 * (value - threshold), threshold * 4.0 - threshold;
      var q := x / y;
      assert q * y == x;
      assert (1.0 - q) * y == y - q * y;
    }
  }

  /**
   The multiplier is the factor owed by the 99th percentile, waived below ten samples, times the one
   owed by the share of the samples that are errors.
   */
  lemma {:induction false} MultiplierIsProduct(samples: seq<Sample>, config: Thresholds) returns (a: real, b: real)
    requires samples != []
    ensures ComputeMultiplier(samples, config) == a * b
    ensures if |samples| < 10 then a == 1.0 else Owes(PercentileLatency(samples, 0.99), config.latencyMs, a)
    ensures Owes(multiset(Errors(samples))[true] as real / |samples| as real, config.errorRate, b)
  {
    hide Owes, Penalty, PercentileLatency;
    a, b := LatencyFactor(samples, config), ErrorFactor(samples, config);
    PenaltyOwes(PercentileLatency(samples, 0.99), config.latencyMs);
    PenaltyOwes(ErrorRate(samples), config.errorRate);
    ErrorCountIs(samples);
  }

  lemma {:induction false} ProductMonotone(a: real, a': real, b: real, b': real)
    requires 0.0 <= a <= a' && 0.0 <= b <= b'
    ensures a * b <= a' * b'
  {
    NotNegative(a' - a, b);
    NotNegative(a', b' - b);
    assert (a' - a) * b == a' * b - a * b && a' * (b' - b) == a' * b' - a' * b;
  }

  lemma {:induction false} NotNegative(x: real, y: real)
    requires x >= 0.0 && y >= 0.0
    ensures x * y >= 0.0
  {
  }

  /** Window `worse` is pointwise slower than `better` and has an error wherever `better` has one. */
  ghost predicate Worse(better: seq<Sample>, worse: seq<Sample>) {
    && |better| == |worse|
    && forall i | 0 <= i < |better| ::
         better[i].latency <= worse[i].latency && (better[i].error ==> worse[i].error)
  }

  lemma {:induction false} WorseHasMoreErrors(better: seq<Sample>, worse: seq<Sample>)
    requires Worse(better, worse)
    ensures ErrorCount(better) <= ErrorCount(worse)
  {
    if better != [] { WorseHasMoreErrors(better[1..], worse[1..]); }
  }

  lemma {:induction false} WorseHasHigherPercentile(better: seq<Sample>, worse: seq<Sample>, pct: real)
    requires Worse(better, worse) && better != []
    ensures PercentileLatency(better, pct) <= PercentileLatency(worse, pct)
  {
    PercentileIsOrderStatistic(better, pct);
    PercentileIsOrderStatistic(worse, pct);
    OrderStatisticsMonotone(Latencies(better), Latencies(worse), Rank(|better|, pct),
                            PercentileLatency(better, pct), PercentileLatency(worse, pct));
  }

  lemma {:induction false} WorseHasHigherErrorRate(better: seq<Sample>, worse: seq<Sample>)
    requires Worse(better, worse) && better != []
    ensures ErrorRate(better) <= ErrorRate(worse)
  {
    WorseHasMoreErrors(better, worse);
    QuotientMonotone(ErrorCount(better) as real, ErrorCount(worse) as real, |better| as real);
  }

  lemma {:induction false} MultiplierAntitone(better: seq<Sample>, worse: seq<Sample>, config: Thresholds)
    requires Worse(better, worse) && better != []
    ensures ComputeMultiplier(worse, config) <= ComputeMultiplier(better, config)
  {
    hide PercentileLatency, ErrorRate, Penalty;
    if |better| >= 10 {
      WorseHasHigherPercentile(better, worse, 0.99);
      PenaltyAntitone(PercentileLatency(better, 0.99), PercentileLatency(worse, 0.99),
                      config.latencyMs, config.latencyMs * 4.0);
    }
    WorseHasHigherErrorRate(better, worse);
    PenaltyAntitone(ErrorRate(better), ErrorRate(worse), config.errorRate, config.errorRate * 4.0);
    ProductMonotone(LatencyFactor(worse, config), LatencyFactor(better, config),
                    ErrorFactor(worse, config), ErrorFactor(better, config));
  }

  // ------------------------------------------------------------------------------------------
  // The effective weight.

  /** Statistics count while adaptation is on, they hold a sample, and at most 60 s have passed. */
  predicate Active(enabled: bool, stats: Option<Stats>, now: nat) {
    && enabled && stats.Some? && stats.value.samples != []
    && (now <= stats.value.lastUpdate || (now - stats.value.lastUpdate) / 1000 <= 60)
  }

  /** The scaled weight, truncated, and at least 1. */
  function Scale(weight: nat, multiplier: real): (r: nat) {
    AtLeastOne((weight as real * multiplier).Floor)
  }

  function AtLeastOne(n: int): nat { if n <= 1 then 1 else n }

  function EffectiveWeight(weight: nat, enabled: bool, stats: Option<Stats>, now: nat, config: Thresholds): nat {
    if Active(enabled, stats, now) then Scale(weight, ComputeMultiplier(stats.value.samples, config)) else weight
  }

  /**
   The value: while adaptation is on, a sample is held and less than 61 seconds have passed since the last,
   the weight times the multiplier rounded down, but at least 1; the static weight otherwise.
   */
  lemma {:induction false} EffectiveWeightIs(
      weight: nat, enabled: bool, stats: Option<Stats>, now: nat, config: Thresholds)
    ensures var r := EffectiveWeight(weight, enabled, stats, now, config);
      if enabled && stats.Some? && stats.value.samples != [] && now < stats.value.lastUpdate + 61000 then
        var x := weight as real * ComputeMultiplier(stats.value.samples, config);
        if x < 1.0 then r == 1 else r as real <= x < r as real + 1.0
      else r == weight
  {
    hide ComputeMultiplier;
  }

  /** An origin whose window passes neither threshold keeps its weight. */
  lemma {:induction false} HealthyKeepsWeight(
      weight: nat, enabled: bool, stats: Stats, now: nat, config: Thresholds)
    requires weight >= 1 && stats.samples != []
    requires |stats.samples| < 10 || PercentileLatency(stats.samples, 0.99) <= config.latencyMs
    requires multiset(Errors(stats.samples))[true] as real / |stats.samples| as real <= config.errorRate
    ensures EffectiveWeight(weight, enabled, Some(stats), now, config) == weight
  {
    hide ComputeMultiplier, PercentileLatency;
    ErrorCountIs(stats.samples);
    MultiplierBounds(stats.samples, config);
    EffectiveWeightIs(weight, enabled, Some(stats), now, config);
    assert weight as real * 1.0 == weight as real;
  }

  lemma {:induction false} ScaleMonotone(weight: nat, m: real, m': real)
    requires 0.0 <= m <= m' <= 1.0
    ensures 1 <= Scale(weight, m) <= Scale(weight, m')
    ensures Scale(weight, m') <= weight || weight == 0
  {
    var w := weight as real;
    Products(w, m, m');
    Truncated(w * m, w * m', weight);
  }

  lemma {:induction false} Truncated(x: real, y: real, weight: nat)
    requires x <= y <= weight as real
    ensures 1 <= AtLeastOne(x.Floor) <= AtLeastOne(y.Floor)
    ensures AtLeastOne(y.Floor) <= weight || weight == 0
  {
    FloorMonotone(x, y);
    FloorMonotone(y, weight as real);
  }

  lemma {:induction false} Products(w: real, m: real, m': real)
    requires 0.0 <= w && 0.0 <= m <= m' <= 1.0
    ensures 0.0 <= w * m <= w * m' <= w
  {
    ProductMonotone(w, w, m, m');
    Shrinks(w, m);
    Shrinks(w, m');
  }

  lemma {:induction false} Shrinks(w: real, m: real)
    requires 0.0 <= w && 0.0 <= m <= 1.0
    ensures 0.0 <= w * m <= w
  {
    ProductMonotone(w, w, m, 1.0);
    assert w * m <= w * 1.0 == w;
  }

  lemma {:induction false} FloorMonotone(x: real, y: real)
    requires x <= y
    ensures x.Floor <= y.Floor
  {
  }

  /** Between 1 and the static weight; a weight of 0 is the only one that can be raised. */
  lemma {:induction false} EffectiveWeightBounds(
      weight: nat, enabled: bool, stats: Option<Stats>, now: nat, config: Thresholds)
    ensures weight >= 1 ==> 1 <= EffectiveWeight(weight, enabled, stats, now, config) <= weight
    ensures EffectiveWeight(weight, enabled, stats, now, config) > weight
       <==> weight == 0 && Active(enabled, stats, now)
  {
    hide ComputeMultiplier, Scale;
    if Active(enabled, stats, now) {
      MultiplierBounds(stats.value.samples, config);
      ScaleMonotone(weight, ComputeMultiplier(stats.value.samples, config), 1.0);
    }
  }

  /** Worse windows never have a larger effective weight, whatever the thresholds. */
  lemma {:induction false} EffectiveWeightAntitone(
      weight: nat, enabled: bool, better: Stats, worse: Stats, now: nat, config: Thresholds)
    requires Worse(better.samples, worse.samples) && better.lastUpdate == worse.lastUpdate
    ensures EffectiveWeight(weight, enabled, Some(worse), now, config)
         <= EffectiveWeight(weight, enabled, Some(better), now, config)
  {
    hide ComputeMultiplier, Scale;
    if Active(enabled, Some(better), now) {
      MultiplierBounds(better.samples, config);
      MultiplierBounds(worse.samples, config);
      MultiplierAntitone(better.samples, worse.samples, config);
      ScaleMonotone(weight, ComputeMultiplier(worse.samples, config), ComputeMultiplier(better.samples, config));
    }
  }

  /** Ten slow failures under the default thresholds: the multiplier is 1/100, below 1/10. */
  lemma {:induction false} MultiplierReachesOneHundredth(samples: seq<Sample>)
    requires |samples| >= 10 && forall i | 0 <= i < |samples| :: samples[i] == Sample(2000.0, true)
    ensures ComputeMultiplier(samples, Thresholds(500.0, 0.1)) == 0.01
  {
    hide ComputeMultiplier, PercentileLatency;
    AllErrors(samples);
    var v := PercentileLatency(samples, 0.99);
    PercentileIsOrderStatistic(samples, 0.99);
    if v < 2000.0 { NoneUpTo(Latencies(samples), v); }
    MultiplierBounds(samples, Thresholds(500.0, 0.1));
  }

  lemma {:induction false} AllErrors(samples: seq<Sample>)
    requires forall i | 0 <= i < |samples| :: samples[i].error
    ensures ErrorCount(samples) == |samples|
    ensures samples != [] ==> ErrorRate(samples) == 1.0
  {
    if samples != [] { AllErrors(samples[1..]); }
  }

  lemma {:induction false} NoneUpTo(xs: seq<real>, v: real)
    requires forall i | 0 <= i < |xs| :: v < xs[i]
    ensures CountUpTo(xs, v) == 0
  {
    if xs != [] { NoneUpTo(xs[1..], v); }
  }

  // ------------------------------------------------------------------------------------------
  // Recording.

  datatype Response = Response(site: string, origin: string, sample: Sample, windowSize: nat, at: nat)

  function Key(site: string, origin: string): string { site + "\0" + origin }

  lemma {:induction false} KeysDiffer(site: string, origin: string, site': string, origin': string)
    requires '\0' !in site && '\0' !in site' && Key(site, origin) == Key(site', origin')
    ensures site == site' && origin == origin'
  {
    var k, k' := Key(site, origin), Key(site', origin');
    assert k[|site|] == '\0' && k'[|site'|] == '\0';
    assert site == k[..|site|] && site' == k'[..|site'|];
    assert origin == k[|site| + 1..] && origin' == k'[|site'| + 1..];
  }

  /** The last n entries, or all of them. */
  function Recent<T>(s: seq<T>, n: nat): (r: seq<T>)
    ensures |r| == if |s| <= n then |s| else n
  {
    if |s| <= n then s else s[|s| - n..]
  }

  function Widened(windowSize: nat): nat { if windowSize == 0 then 1 else windowSize }

  class OriginTracker {
    var originStats: map<string, Stats>

    constructor ()
      ensures originStats == map[]
    {
      originStats := map[];
    }

    /** `record_response`: a new key takes this call's window size, an old one keeps its own. */
    method RecordResponse(r: Response)
      modifies this
      ensures originStats == Record(old(originStats), r)
    {
      var key := Key(r.site, r.origin);
      if key !in originStats {
        originStats := originStats[key := Stats([], r.windowSize, r.at)];
      }
      var samples := originStats[key].samples;
      if |samples| >= originStats[key].windowSize && samples != [] {
        samples := samples[1..];
      }
      samples := samples + [r.sample];
      originStats := originStats[key := Stats(samples, originStats[key].windowSize, r.at)];
    }
  }

  function Record(m: map<string, Stats>, r: Response): map<string, Stats> {
    var key := Key(r.site, r.origin);
    var was := if key in m then m[key] else Stats([], r.windowSize, r.at);
    var kept := if |was.samples| >= was.windowSize && was.samples != [] then was.samples[1..] else was.samples;
    m[key := Stats(kept + [r.sample], was.windowSize, r.at)]
  }

  function RecordAll(rs: seq<Response>): map<string, Stats> {
    if rs == [] then map[] else Record(RecordAll(rs[..|rs| - 1]), rs[|rs| - 1])
  }

  /** The responses recorded under one key, oldest first. */
  function Own(rs: seq<Response>, key: string): seq<Response> {
    if rs == [] then []
    else
      var last := rs[|rs| - 1];
      Own(rs[..|rs| - 1], key) + if Key(last.site, last.origin) == key then [last] else []
  }

  function Samples(rs: seq<Response>): (r: seq<Sample>)
    ensures |r| == |rs|
  {
    seq(|rs|, i requires 0 <= i < |rs| => rs[i].sample)
  }

  function Summary(own: seq<Response>): (s: Stats)
    requires own != []
  {
    Stats(Recent(Samples(own), Widened(own[0].windowSize)), own[0].windowSize, own[|own| - 1].at)
  }

  lemma {:induction false} RecentSnoc<T>(s: seq<T>, x: T, n: nat)
    requires n > 0
    ensures var kept := if |Recent(s, n)| >= n then Recent(s, n)[1..] else Recent(s, n);
            Recent(s + [x], n) == kept + [x]
  {
  }

  /**
   After any responses, a key has statistics exactly when it was recorded, and they are its own
   latest samples, as many as the window size of its first response allows (never fewer than one).
   */
  lemma {:induction false} WindowHoldsRecentSamples(rs: seq<Response>, key: string)
    ensures key in RecordAll(rs) <==> Own(rs, key) != []
    ensures key in RecordAll(rs) ==> RecordAll(rs)[key] == Summary(Own(rs, key))
  {
    hide Key, Recent;
    if rs != [] {
      var front, last := rs[..|rs| - 1], rs[|rs| - 1];
      WindowHoldsRecentSamples(front, key);
      if Key(last.site, last.origin) == key {
        SummarySnoc(RecordAll(front), Own(front, key), last);
      } else {
        assert Own(rs, key) == Own(front, key);
      }
    }
  }

  lemma {:induction false} SummarySnoc(m: map<string, Stats>, own: seq<Response>, last: Response)
    requires var key := Key(last.site, last.origin);
             (key in m <==> own != []) && (key in m ==> m[key] == Summary(own))
    ensures Record(m, last)[Key(last.site, last.origin)] == Summary(own + [last])
  {
    hide Key, Recent, Samples;
    SamplesSnoc(own, last);
    if own == [] {
      FirstSample(last.sample, last.windowSize);
    } else {
      RecentSize(Samples(own), Widened(own[0].windowSize));
      RecentSnoc(Samples(own), last.sample, Widened(own[0].windowSize));
    }
  }

  lemma {:induction false} SamplesSnoc(own: seq<Response>, last: Response)
    ensures Samples(own + [last]) == Samples(own) + [last.sample] && Samples([]) == []
  {
  }

  lemma {:induction false} FirstSample(x: Sample, windowSize: nat)
    ensures Recent([] + [x], Widened(windowSize)) == [x] && [] + [x] == [x]
  {
  }

  lemma {:induction false} RecentSize<T>(s: seq<T>, n: nat)
    requires s != [] && n > 0
    ensures Recent(s, n) != [] && |Recent(s, n)| <= n
  {
  }
}
