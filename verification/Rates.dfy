/** Rate statistics: the decayed mean and variance a worker carries, and the
    fleet statistics behind the straggler test.  Floating point is modelled by
    exact reals; `alpha` stands for `1 - exp(-dt / tau)` after its clamp. */
module Rates {

  const SAMPLES_MAX: nat := 0xFFFF_FFFF

  datatype Ewma = Ewma(mean: real, variance: real, samples: nat) {
    predicate IsWarm() { samples >= 3 }

    function Observed(value: real, alpha: real): Ewma {
      if samples == 0 then Ewma(value, 0.0, 1)
      else
        Ewma(NextMean(mean, value, alpha), NextVariance(variance, mean, value, alpha),
             if samples < SAMPLES_MAX then samples + 1 else samples)
    }
  }

  function NextMean(m: real, x: real, a: real): real { m + a * (x - m) }

  function NextVariance(v: real, m: real, x: real, a: real): real { (1.0 - a) * (v + a * (x - m) * (x - m)) }

  const Cold := Ewma(0.0, 0.0, 0)

  predicate ValidAlpha(alpha: real) { 0.0001 <= alpha <= 1.0 }

  /** A rate as measured; infinities and NaN are skipped. */
  datatype Measured = Finite(value: real) | NotFinite

  class EwmaWithVariance {
    var mean: real
    var variance: real
    var samples: nat

    ghost function Value(): Ewma
      reads this
    {
      Ewma(mean, variance, samples)
    }

    constructor ()
      ensures Value() == Cold
    {
      mean, variance, samples := 0.0, 0.0, 0;
    }

    method Observe(sample: Measured, alpha: real)
      modifies this
      ensures Value() == match sample
                         case NotFinite => old(Value())
                         case Finite(value) => old(Value()).Observed(value, alpha)
    {
      if sample.NotFinite? {
        return;
      }
      var value := sample.value;
      if samples == 0 {
        mean := value;
        variance := 0.0;
        samples := 1;
        return;
      }
      var delta := value - mean;
      mean := mean + alpha * delta;
      variance := (1.0 - alpha) * (variance + alpha * delta * delta);
      if samples < SAMPLES_MAX {
        samples := samples + 1;
      }
    }
  }

  // ---------------------------------------------------------------- arithmetic steps

  lemma Product(x: real, y: real)
    requires x >= 0.0 && y >= 0.0
    ensures x * y >= 0.0
  {}

  lemma Square(x: real)
    ensures x * x >= 0.0
  {
    if x >= 0.0 { Product(x, x); } else { Product(-x, -x); }
  }

  lemma CancelFactor(n: real, a: real, b: real)
    requires n > 0.0 && n * a <= n * b
    ensures a <= b
  {}

  lemma DivideMultiply(s: real, n: real)
    requires n != 0.0
    ensures s / n * n == s
  {}

  // ---------------------------------------------------------------- weighted statistics

  /** An observation history, newest last; each sample with its `alpha`. */
  datatype History = Empty | Then(init: History, value: real, alpha: real)

  /** A weighted list of samples. */
  datatype Weighted = Nothing | Sample(init: Weighted, weight: real, value: real)

  function After(h: History): Ewma {
    match h
    case Empty => Cold
    case Then(init, x, a) => After(init).Observed(x, a)
  }

  function Scale(l: Weighted, k: real): Weighted {
    match l
    case Nothing => Nothing
    case Sample(init, w, x) => Sample(Scale(init, k), k * w, x)
  }

  /** The definition: every new sample takes weight `alpha` and scales the older
      weights by `1 - alpha`; the first sample has weight one. */
  function Exponential(h: History): Weighted {
    match h
    case Empty => Nothing
    case Then(init, x, a) =>
      if init.Empty? then Sample(Nothing, 1.0, x)
      else Sample(Scale(Exponential(init), 1.0 - a), a, x)
  }

  function TotalWeight(l: Weighted): real {
    match l
    case Nothing => 0.0
    case Sample(init, w, _) => TotalWeight(init) + w
  }

  function WeightedSum(l: Weighted): real {
    match l
    case Nothing => 0.0
    case Sample(init, w, x) => WeightedSum(init) + w * x
  }

  /** Every value replaced by its squared distance to `c`. */
  function Distances(l: Weighted, c: real): Weighted {
    match l
    case Nothing => Nothing
    case Sample(init, w, x) => Sample(Distances(init, c), w, (x - c) * (x - c))
  }

  /** Weighted sum of the squared distances to `c`. */
  function WeightedSpread(l: Weighted, c: real): real { WeightedSum(Distances(l, c)) }

  predicate Convex(l: Weighted) { TotalWeight(l) == 1.0 && NonNegative(l) }

  predicate NonNegative(l: Weighted) {
    l.Sample? ==> l.weight >= 0.0 && NonNegative(l.init)
  }

  predicate Within(l: Weighted, lo: real, hi: real) {
    l.Sample? ==> lo <= l.value <= hi && Within(l.init, lo, hi)
  }

  predicate ValidHistory(h: History, lo: real, hi: real) {
    h.Then? ==> ValidAlpha(h.alpha) && lo <= h.value <= hi && ValidHistory(h.init, lo, hi)
  }

  lemma ScaleTerm(k: real, m: real, w: real, x: real)
    ensures k * m + (k * w) * x == k * (m + w * x)
  {}

  lemma {:induction false} ScaleWeight(l: Weighted, k: real)
    ensures TotalWeight(Scale(l, k)) == k * TotalWeight(l)
  {
    if l.Sample? {
      ScaleWeight(l.init, k);
      ScaleTerm(k, TotalWeight(l.init), l.weight, 1.0);
    }
  }

  lemma {:induction false} ScaleSum(l: Weighted, k: real)
    ensures WeightedSum(Scale(l, k)) == k * WeightedSum(l)
  {
    if l.Sample? {
      ScaleSum(l.init, k);
      ScaleTerm(k, WeightedSum(l.init), l.weight, l.value);
    }
  }

  lemma {:induction false} ScaleDistances(l: Weighted, k: real, c: real)
    ensures Distances(Scale(l, k), c) == Scale(Distances(l, c), k)
  {
    if l.Sample? { ScaleDistances(l.init, k, c); }
  }

  lemma {:induction false} ScaleKeeps(l: Weighted, k: real, lo: real, hi: real)
    requires k >= 0.0 && NonNegative(l) && Within(l, lo, hi)
    ensures NonNegative(Scale(l, k)) && Within(Scale(l, k), lo, hi)
  {
    if l.Sample? {
      ScaleKeeps(l.init, k, lo, hi);
      Product(k, l.weight);
    }
  }

  /** The exponential weights are non-negative and sum to one. */
  lemma {:induction false} ExponentialIsConvex(h: History, lo: real, hi: real)
    requires h.Then? && ValidHistory(h, lo, hi)
    ensures Convex(Exponential(h)) && Within(Exponential(h), lo, hi)
  {
    if h.init.Then? {
      var l, k := Exponential(h.init), 1.0 - h.alpha;
      ExponentialIsConvex(h.init, lo, hi);
      ScaleWeight(l, k);
      ScaleKeeps(l, k, lo, hi);
    } else {
      assert Exponential(h) == Sample(Nothing, 1.0, h.value);
    }
  }

  lemma SpreadUnfold(l: Weighted, w: real, x: real, c: real)
    ensures WeightedSpread(Sample(l, w, x), c) == WeightedSpread(l, c) + w * ((x - c) * (x - c))
  {}

  /** The same weights, and values that depend linearly on each other. */
  ghost predicate Related(l: Weighted, a: Weighted, b: Weighted, p: real, q: real) {
    match l
    case Nothing => a.Nothing? && b.Nothing?
    case Sample(init, w, x) =>
      && a.Sample? && b.Sample? && a.weight == w && b.weight == w
      && b.value == a.value + p * x + q
      && Related(init, a.init, b.init, p, q)
  }

  lemma LinearTerm(a: real, b: real, c: real, w: real, x: real, y: real, z: real, p: real, q: real)
    requires z == y + p * x + q
    ensures (a + p * b + q * c) + w * z == (a + w * y) + p * (b + w * x) + q * (c + w)
  {
    assert w * z == w * y + p * (w * x) + q * w;
  }

  lemma {:induction false} SumLinear(l: Weighted, a: Weighted, b: Weighted, p: real, q: real)
    requires Related(l, a, b, p, q)
    ensures WeightedSum(b) == WeightedSum(a) + p * WeightedSum(l) + q * TotalWeight(l)
  {
    if l.Sample? {
      SumLinear(l.init, a.init, b.init, p, q);
      LinearTerm(WeightedSum(a.init), WeightedSum(l.init), TotalWeight(l.init),
                 l.weight, l.value, a.value, b.value, p, q);
    }
  }

  lemma ShiftTerm(x: real, c: real, d: real)
    ensures (x - d) * (x - d) == (x - c) * (x - c) + 2.0 * (c - d) * x + (d * d - c * c)
  {}

  lemma {:induction false} DistancesRelated(l: Weighted, c: real, d: real)
    ensures Related(l, Distances(l, c), Distances(l, d), 2.0 * (c - d), d * d - c * c)
  {
    if l.Sample? {
      DistancesRelated(l.init, c, d);
      ShiftTerm(l.value, c, d);
    }
  }

  lemma SteinerTerm(s: real, t: real, m: real, d: real, p: real, q: real)
    requires p == 2.0 * (m - d) && q == d * d - m * m && t == s + p * m + q
    ensures t == s + (m - d) * (m - d)
  {}

  /** Steiner's theorem. */
  lemma SpreadAround(l: Weighted, m: real, d: real)
    requires TotalWeight(l) == 1.0 && WeightedSum(l) == m
    ensures WeightedSpread(l, d) == WeightedSpread(l, m) + (m - d) * (m - d)
  {
    var p, q := 2.0 * (m - d), d * d - m * m;
    DistancesRelated(l, m, d);
    SumLinear(l, Distances(l, m), Distances(l, d), p, q);
    SteinerTerm(WeightedSpread(l, m), WeightedSpread(l, d), m, d, p, q);
  }

  lemma MeanStep(m: real, x: real, a: real)
    ensures (1.0 - a) * m + a * x == NextMean(m, x, a)
  {}

  lemma VarianceStep(v: real, m: real, m': real, x: real, a: real)
    requires m' == m + a * (x - m)
    ensures (1.0 - a) * (v + (m - m') * (m - m')) + a * ((x - m') * (x - m')) ==
            (1.0 - a) * (v + a * (x - m) * (x - m))
  {
    var d := x - m;
    assert (m - m') * (m - m') == a * a * (d * d);
    assert (x - m') * (x - m') == (1.0 - a) * (1.0 - a) * (d * d);
    assert a * ((1.0 - a) * (1.0 - a) * (d * d)) == (1.0 - a) * (a * (1.0 - a) * (d * d));
    assert a * d * d == a * a * (d * d) + a * (1.0 - a) * (d * d);
  }

  lemma {:induction false} AfterTracks(h: History, lo: real, hi: real)
    requires h.Then? && ValidHistory(h, lo, hi)
    ensures After(h).samples > 0
    ensures After(h).mean == WeightedSum(Exponential(h))
    ensures After(h).variance == WeightedSpread(Exponential(h), After(h).mean)
  {
    if h.init.Then? {
      AfterTracks(h.init, lo, hi);
      ExponentialIsConvex(h.init, lo, hi);
      MeanTracks(After(h.init), Exponential(h.init), h.value, h.alpha);
      VarianceTracks(After(h.init), Exponential(h.init), h.value, h.alpha, After(h));
    } else {
      assert Exponential(h) == Sample(Nothing, 1.0, h.value);
      assert After(h.init) == Cold;
      SpreadUnfold(Nothing, 1.0, h.value, h.value);
    }
  }

  lemma VarianceTracks(e: Ewma, l: Weighted, x: real, a: real, e': Ewma)
    requires e.samples > 0 && TotalWeight(l) == 1.0 && e' == e.Observed(x, a)
    requires e.mean == WeightedSum(l) && e.variance == WeightedSpread(l, e.mean)
    ensures e'.variance == WeightedSpread(Sample(Scale(l, 1.0 - a), a, x), e'.mean)
  {
    SpreadStep(l, e.variance, e.mean, x, a, NextMean(e.mean, x, a));
  }

  lemma MeanTracks(e: Ewma, l: Weighted, x: real, a: real)
    requires e.samples > 0 && e.mean == WeightedSum(l)
    ensures e.Observed(x, a).mean == WeightedSum(Sample(Scale(l, 1.0 - a), a, x))
  {
    ScaleSum(l, 1.0 - a);
    MeanStep(e.mean, x, a);
  }

  lemma SpreadStep(l: Weighted, v: real, m: real, x: real, a: real, m': real)
    requires TotalWeight(l) == 1.0 && WeightedSum(l) == m && WeightedSpread(l, m) == v
    requires m' == NextMean(m, x, a)
    ensures WeightedSpread(Sample(Scale(l, 1.0 - a), a, x), m') == NextVariance(v, m, x, a)
  {
    var s, t := WeightedSpread(l, m'), WeightedSpread(Sample(Scale(l, 1.0 - a), a, x), m');
    assert s == v + (m - m') * (m - m') by { SpreadAround(l, m, m'); }
    assert t == (1.0 - a) * s + a * ((x - m') * (x - m')) by { AppendedSpread(l, x, a, m'); }
    CombineSteps(v, m, m', x, a, s, t);
  }

  lemma CombineSteps(v: real, m: real, m': real, x: real, a: real, s: real, t: real)
    requires m' == m + a * (x - m) && s == v + (m - m') * (m - m')
    requires t == (1.0 - a) * s + a * ((x - m') * (x - m'))
    ensures t == NextVariance(v, m, x, a)
  {
    VarianceStep(v, m, m', x, a);
  }

  lemma AppendedSpread(l: Weighted, x: real, a: real, c: real)
    ensures WeightedSpread(Sample(Scale(l, 1.0 - a), a, x), c) ==
            (1.0 - a) * WeightedSpread(l, c) + a * ((x - c) * (x - c))
  {
    ScaleDistances(l, 1.0 - a, c);
    ScaleSum(Distances(l, c), 1.0 - a);
    SpreadUnfold(Scale(l, 1.0 - a), a, x, c);
  }

  function Length(h: History): nat { if h.Empty? then 0 else Length(h.init) + 1 }

  /** Every observation is counted, up to the width of the counter, so a worker is warm from
      its third on. */
  lemma {:induction false} SamplesCount(h: History)
    ensures After(h).samples == if Length(h) < 0xFFFF_FFFF then Length(h) else 0xFFFF_FFFF
    ensures After(h).IsWarm() <==> Length(h) >= 3
  {
    if h.Then? { SamplesCount(h.init); }
  }

  /** In a fleet with some dispersion the test is a comparison with `z` deviations below the
      mean, or with the share; without any, half the mean counts as four deviations. */
  lemma SlowIff(rate: real, mean: real, sd: real, z: real, share: real)
    ensures sd >= 0.000000001 ==> (IsSlow(rate, mean, sd, z, share) <==> mean - rate >= z * sd || rate < mean * share)
    ensures sd < 0.000000001 ==> (IsSlow(rate, mean, sd, z, share) <==>
              z <= 0.0 || (rate < mean * 0.5 && z <= 4.0) || rate < mean * share)
  {
    if sd >= 0.000000001 { QuotientAtLeast(mean - rate, sd, z); }
  }

  lemma CompareTimes(q: real, z: real, s: real)
    requires s > 0.0
    ensures q >= z <==> q * s >= z * s
  {
    if q >= z { Product(q - z, s); }
    if q * s >= z * s && q < z {
      CancelFactor(s, z, q);
    }
  }

  lemma QuotientAtLeast(x: real, s: real, z: real)
    requires s > 0.0
    ensures x / s >= z <==> x >= z * s
  {
    var q := x / s;
    DivideMultiply(x, s);
    CompareTimes(q, z, s);
  }

  /** After any observation sequence the incremental mean and variance are exactly
      the weighted mean and weighted variance under the exponential weights, the
      mean is between the extreme samples and the variance is at most a quarter of
      the squared range. */
  lemma IncrementalIsExact(h: History, lo: real, hi: real)
    requires h.Then? && ValidHistory(h, lo, hi)
    ensures Convex(Exponential(h))
    ensures After(h).mean == WeightedSum(Exponential(h))
    ensures After(h).variance == WeightedSpread(Exponential(h), After(h).mean)
    ensures lo <= After(h).mean <= hi
    ensures 0.0 <= After(h).variance <= (hi - lo) * (hi - lo) / 4.0
  {
    AfterTracks(h, lo, hi);
    ExponentialIsConvex(h, lo, hi);
    SumBounds(Exponential(h), lo, hi);
    VarianceBounds(Exponential(h), lo, hi);
  }

  lemma BoundTerm(u: real, m: real, k: real, x: real, lo: real, hi: real)
    requires lo * u <= m <= hi * u && k >= 0.0 && lo <= x <= hi
    ensures lo * (u + k) <= m + k * x <= hi * (u + k)
  {
    Product(k, x - lo);
    Product(k, hi - x);
  }

  lemma {:induction false} SumBounds(l: Weighted, lo: real, hi: real)
    requires NonNegative(l) && Within(l, lo, hi)
    ensures lo * TotalWeight(l) <= WeightedSum(l) <= hi * TotalWeight(l)
  {
    match l
    case Nothing =>
    case Sample(init, w, x) =>
      SumBounds(init, lo, hi);
      BoundTerm(TotalWeight(init), WeightedSum(init), w, x, lo, hi);
  }

  lemma MidpointTerm(x: real, lo: real, hi: real)
    requires lo <= x <= hi
    ensures var c := (lo + hi) / 2.0; (x - c) * (x - c) <= (hi - lo) * (hi - lo) / 4.0
  {
    Product(x - lo, hi - x);
    var c := (lo + hi) / 2.0;
    assert (hi - lo) * (hi - lo) / 4.0 - (x - c) * (x - c) == (x - lo) * (hi - x);
  }

  /** No sample is further from the midpoint than half the range. */
  lemma {:induction false} DistancesWithin(l: Weighted, lo: real, hi: real)
    requires NonNegative(l) && Within(l, lo, hi)
    ensures NonNegative(Distances(l, (lo + hi) / 2.0))
    ensures Within(Distances(l, (lo + hi) / 2.0), 0.0, (hi - lo) * (hi - lo) / 4.0)
  {
    if l.Sample? {
      DistancesWithin(l.init, lo, hi);
      MidpointTerm(l.value, lo, hi);
      Square(l.value - (lo + hi) / 2.0);
    }
  }

  lemma {:induction false} SpreadNonNegative(l: Weighted, c: real)
    requires NonNegative(l)
    ensures 0.0 <= WeightedSpread(l, c)
  {
    match l
    case Nothing =>
    case Sample(init, w, x) =>
      SpreadNonNegative(init, c);
      Square(x - c);
      Product(w, (x - c) * (x - c));
  }

  lemma {:induction false} DistancesWeight(l: Weighted, c: real)
    ensures TotalWeight(Distances(l, c)) == TotalWeight(l)
  {
    if l.Sample? { DistancesWeight(l.init, c); }
  }

  lemma VarianceBounds(l: Weighted, lo: real, hi: real)
    requires Convex(l) && Within(l, lo, hi)
    ensures 0.0 <= WeightedSpread(l, WeightedSum(l)) <= (hi - lo) * (hi - lo) / 4.0
  {
    SpreadNonNegative(l, WeightedSum(l));
    DistancesWithin(l, lo, hi);
    VarianceAtMost(l, (lo + hi) / 2.0, (hi - lo) * (hi - lo) / 4.0);
  }

  lemma VarianceAtMost(l: Weighted, c: real, q: real)
    requires Convex(l) && NonNegative(Distances(l, c)) && Within(Distances(l, c), 0.0, q)
    ensures WeightedSpread(l, WeightedSum(l)) <= q
  {
    SpreadAtMost(l, c, q);
    SpreadAround(l, WeightedSum(l), c);
    Square(WeightedSum(l) - c);
  }

  lemma SpreadAtMost(l: Weighted, c: real, q: real)
    requires Convex(l) && NonNegative(Distances(l, c)) && Within(Distances(l, c), 0.0, q)
    ensures WeightedSpread(l, c) <= q
  {
    DistancesWeight(l, c);
    SumBounds(Distances(l, c), 0.0, q);
  }

  // ---------------------------------------------------------------- fleet statistics

  /** The warm workers' rates. */
  datatype Fleet = Nobody | Worker(rest: Fleet, rate: real)

  function Count(f: Fleet): (n: real)
    ensures 0.0 <= n && (f.Worker? ==> 1.0 <= n)
  {
    if f.Nobody? then 0.0 else Count(f.rest) + 1.0
  }

  function Total(f: Fleet): real {
    if f.Nobody? then 0.0 else Total(f.rest) + f.rate
  }

  /** Sum of the squared distances to `c`. */
  function Spread(f: Fleet, c: real): real {
    if f.Nobody? then 0.0 else Spread(f.rest, c) + (f.rate - c) * (f.rate - c)
  }

  /** Sum of the signed distances to `c`. */
  function Deviation(f: Fleet, c: real): real {
    if f.Nobody? then 0.0 else Deviation(f.rest, c) + (f.rate - c)
  }

  predicate Member(f: Fleet, rate: real) {
    f.Worker? && (f.rate == rate || Member(f.rest, rate))
  }

  predicate AllRates(f: Fleet, lo: real, hi: real) {
    f.Worker? ==> lo <= f.rate <= hi && AllRates(f.rest, lo, hi)
  }

  /** `m` is the mean of the rates and `v` their population variance. */
  ghost predicate IsMean(f: Fleet, m: real) { f.Worker? && m * Count(f) == Total(f) }

  ghost predicate IsVariance(f: Fleet, m: real, v: real) { v * Count(f) == Spread(f, m) }

  /** What `fleet_stats` computes; `sd` is the square root of the variance. */
  ghost predicate FleetStats(f: Fleet, m: real, sd: real) {
    IsMean(f, m) && sd >= 0.0 && IsVariance(f, m, sd * sd)
  }

  function ZBelow(rate: real, mean: real, sd: real): real {
    if sd < 0.000000001 then (if rate < mean * 0.5 then 4.0 else 0.0)
    else (mean - rate) / sd
  }

  /** The outlier test: far below the mean, or below the fair share of it. */
  predicate IsSlow(rate: real, mean: real, sd: real, z: real, share: real) {
    ZBelow(rate, mean, sd) >= z || rate < mean * share
  }

  /** Sum of the squared distances to `t` of `n` numbers with sum `d` and square sum `s`. */
  function Form(n: real, d: real, s: real, t: real): real { n * (t * t) - 2.0 * (t * d) + s }

  lemma FormStep(n: real, d: real, s: real, x: real, t: real)
    ensures Form(n + 1.0, d + x, s + x * x, t) == Form(n, d, s, t) + (t - x) * (t - x)
  {}

  lemma FormGrows(n: real, d: real, s: real, x: real, t: real)
    requires Form(n, d, s, t) >= 0.0
    ensures Form(n + 1.0, d + x, s + x * x, t) >= 0.0
  {
    FormStep(n, d, s, x, t);
    Square(t - x);
  }

  lemma FormAtMean(n: real, d: real, s: real)
    requires n > 0.0 && Form(n, d, s, d / n) >= 0.0
    ensures d * d <= n * s
  {
    DivideMultiply(d, n);
    FormTimes(n, d, s, d / n);
  }

  lemma FormTimes(n: real, d: real, s: real, t: real)
    requires n > 0.0 && t * n == d && Form(n, d, s, t) >= 0.0
    ensures d * d <= n * s
  {
    Product(n, Form(n, d, s, t));
    assert t * d == n * (t * t);
    assert d * d == n * (t * d);
  }

  lemma {:induction false} DeviationIs(f: Fleet, c: real)
    ensures Deviation(f, c) == Total(f) - c * Count(f)
  {
    if f.Worker? {
      DeviationIs(f.rest, c);
      assert c * (Count(f.rest) + 1.0) == c * Count(f.rest) + c;
    }
  }

  lemma {:induction false} SpreadPositive(f: Fleet, c: real)
    ensures 0.0 <= Spread(f, c)
  {
    if f.Worker? {
      SpreadPositive(f.rest, c);
      Square(f.rate - c);
    }
  }

  /** The distances to `c`, squared again around any `t`. */
  lemma {:induction false} FormPositive(f: Fleet, c: real, t: real)
    ensures Form(Count(f), Deviation(f, c), Spread(f, c), t) >= 0.0
  {
    if f.Worker? {
      FormPositive(f.rest, c, t);
      FormGrows(Count(f.rest), Deviation(f.rest, c), Spread(f.rest, c), f.rate - c, t);
    }
  }

  /** Cauchy's inequality for the distances to `c`. */
  lemma SpreadCauchy(f: Fleet, c: real)
    ensures Deviation(f, c) * Deviation(f, c) <= Count(f) * Spread(f, c)
  {
    if f.Worker? {
      FormPositive(f, c, Deviation(f, c) / Count(f));
      FormAtMean(Count(f), Deviation(f, c), Spread(f, c));
    }
  }

  /** The fleet without one worker of rate `rate`. */
  function Others(f: Fleet, rate: real): Fleet
    requires Member(f, rate)
  {
    if f.rate == rate then f.rest else Worker(Others(f.rest, rate), f.rate)
  }

  lemma {:induction false} OthersSums(f: Fleet, rate: real, c: real)
    requires Member(f, rate)
    ensures Count(Others(f, rate)) == Count(f) - 1.0
    ensures Deviation(Others(f, rate), c) == Deviation(f, c) - (rate - c)
    ensures Spread(Others(f, rate), c) == Spread(f, c) - (rate - c) * (rate - c)
  {
    if f.rate != rate { OthersSums(f.rest, rate, c); }
  }

  lemma OutlierTerm(n: real, v: real, q: real, s: real)
    requires n >= 1.0 && v * n == s && q <= (n - 1.0) * (s - q)
    ensures q <= (n - 1.0) * v
  {
    assert (n - 1.0) * (v * n - q) == n * ((n - 1.0) * v) - n * q + q;
    CancelFactor(n, q, (n - 1.0) * v);
  }

  /** No rate is further than `sqrt(n - 1)` standard deviations from the mean. */
  lemma OutlierBound(f: Fleet, rate: real, m: real, v: real)
    requires Member(f, rate) && IsMean(f, m) && IsVariance(f, m, v)
    ensures (rate - m) * (rate - m) <= (Count(f) - 1.0) * v
  {
    DeviationIs(f, m);
    OthersBound(f, rate, m);
    OutlierTerm(Count(f), v, (rate - m) * (rate - m), Spread(f, m));
  }

  lemma OthersBound(f: Fleet, rate: real, m: real)
    requires Member(f, rate) && Deviation(f, m) == 0.0
    ensures (rate - m) * (rate - m) <= (Count(f) - 1.0) * (Spread(f, m) - (rate - m) * (rate - m))
  {
    OthersSums(f, rate, m);
    SpreadCauchy(Others(f, rate), m);
    SignFlip(rate - m);
  }

  lemma SignFlip(x: real)
    ensures (0.0 - x) * (0.0 - x) == x * x
  {}

  /** With the default thresholds a fleet of at most four warm workers flags
      exactly the workers below half the mean. */
  lemma SmallFleetFlagsOnlyHalfRates(f: Fleet, rate: real, m: real, sd: real)
    requires Member(f, rate) && Count(f) <= 4.0 && FleetStats(f, m, sd)
    ensures IsSlow(rate, m, sd, 2.0, 0.5) <==> rate < m * 0.5
  {
    if sd >= 0.000000001 {
      OutlierBound(f, rate, m, sd * sd);
      SmallQuotient(rate - m, Count(f) - 1.0, sd);
      assert 0.0 - (rate - m) == m - rate;
    }
  }

  lemma SmallQuotient(d: real, n: real, sd: real)
    requires sd > 0.0 && n <= 3.0 && d * d <= n * (sd * sd)
    ensures (0.0 - d) / sd < 2.0
  {
    var q := (0.0 - d) / sd;
    DivideMultiply(0.0 - d, sd);
    SquareBound(q, sd, d, n);
  }

  lemma SquareBound(q: real, s: real, d: real, n: real)
    requires s > 0.0 && q * s == 0.0 - d && n <= 3.0 && d * d <= n * (s * s)
    ensures q < 2.0
  {
    if q >= 2.0 {
      Product(q - 2.0, s);
      LargeSquare(0.0 - d, s);
      SignFlip(d);
      Product(3.0 - n, s * s);
      assert false;
    }
  }

  lemma LargeSquare(x: real, s: real)
    requires s > 0.0 && x >= 2.0 * s
    ensures x * x > 3.0 * (s * s) && s * s >= 0.0
  {
    Product(x - 2.0 * s, x + 2.0 * s);
    assert (x - 2.0 * s) * (x + 2.0 * s) == x * x - 4.0 * (s * s);
    assert s * s > 0.0;
  }

  /** The bound four is tight: a fifth worker can be flagged above half the mean. */
  lemma FiveWorkersCanFlagMore()
    ensures var f := Worker(Worker(Worker(Worker(Worker(Nobody, 10.0), 10.0), 10.0), 10.0), 6.0);
            FleetStats(f, 9.2, 1.6) && IsSlow(6.0, 9.2, 1.6, 2.0, 0.5) && 6.0 > 9.2 * 0.5
  {
    var f := Worker(Worker(Worker(Worker(Worker(Nobody, 10.0), 10.0), 10.0), 10.0), 6.0);
    assert Count(f.rest.rest) == 3.0 && Total(f.rest.rest) == 30.0;
    assert Spread(f.rest.rest, 9.2) == 1.92;
    assert Spread(f, 9.2) == 12.8;
  }

  /** In a fleet of any size the fastest worker is never flagged. */
  lemma FastestNeverFlagged(f: Fleet, rate: real, m: real, sd: real, z: real, share: real)
    requires Member(f, rate) && AllRates(f, 0.0, rate) && IsMean(f, m)
    requires sd >= 0.0 && z > 0.0 && share <= 1.0
    ensures !IsSlow(rate, m, sd, z, share)
  {
    MeanBounds(f, m, rate);
    ZNotPositive(rate, m, sd);
    Product(m, 1.0 - share);
  }

  lemma MeanBounds(f: Fleet, m: real, hi: real)
    requires AllRates(f, 0.0, hi) && IsMean(f, m)
    ensures 0.0 <= m <= hi
  {
    TotalBounds(f, hi);
    Commute(m, Count(f), hi);
  }

  lemma ZNotPositive(rate: real, m: real, sd: real)
    requires 0.0 <= m <= rate && sd >= 0.0
    ensures ZBelow(rate, m, sd) <= 0.0
  {
    if sd >= 0.000000001 { NotPositive(m - rate, sd); }
  }

  lemma Commute(m: real, n: real, hi: real)
    requires n > 0.0 && 0.0 <= m * n <= n * hi
    ensures 0.0 <= m <= hi
  {
    CancelFactor(n, m, hi);
    CancelFactor(n, 0.0, m);
  }

  lemma NotPositive(x: real, s: real)
    requires s > 0.0 && x <= 0.0
    ensures x / s <= 0.0
  {
    DivideMultiply(x, s);
    CancelFactor(s, x / s, 0.0);
  }

  lemma {:induction false} TotalBounds(f: Fleet, hi: real)
    requires AllRates(f, 0.0, hi)
    ensures 0.0 <= Total(f) <= Count(f) * hi
  {
    if f.Worker? {
      TotalBounds(f.rest, hi);
      assert (Count(f.rest) + 1.0) * hi == Count(f.rest) * hi + hi;
    }
  }
}
