/**
 * Amplitude statistics: the 258-bucket histogram, its quantiles, and the
 * slicing levels read off it.
 *
 * Quantiles and fractions, floating point in the program, are exact ratios here.
 */
module Histogram {
  import opened SampleClock
  import opened Sequences
  import opened Iq

  const MAG_LEVELS: nat := 258
  const MAX_U16: nat := 65535

  /** A non-negative ratio. */
  datatype Ratio = Ratio(num: nat, den: nat) {
    predicate Valid() {
      den > 0
    }
  }

  const MEDIAN := Ratio(1, 2)
  const QUARTILE := Ratio(3, 4)
  const SIGNAL := Ratio(999, 1000)

  /** The bucket a magnitude is counted in. */
  function Bucket(magnitude: nat): nat {
    if magnitude < MAG_LEVELS - 1 then magnitude else MAG_LEVELS - 1
  }

  /** How many samples lie in buckets up to v. */
  function CountLe(window: seq<nat>, v: int): (n: nat)
    ensures n <= |window|
  {
    if window == [] then 0
    else CountLe(Front(window), v) + (if Bucket(Last(window)) <= v then 1 else 0)
  }

  /** How many samples lie in bucket v. */
  function CountAt(window: seq<nat>, v: nat): nat {
    if window == [] then 0
    else CountAt(Front(window), v) + (if Bucket(Last(window)) == v then 1 else 0)
  }

  /** ceil(total * p), the number of samples a quantile has to cover. */
  function Target(total: nat, p: Ratio): (t: nat)
    requires p.Valid()
    ensures p.den * t >= total * p.num
    ensures t > 0 ==> p.den * (t - 1) < total * p.num
  {
    var x := total * p.num;
    DivisionBounds(x + p.den - 1, p.den);
    var t := (x + p.den - 1) / p.den;
    assert p.den * (t - 1) == p.den * t - p.den;
    t
  }

  /** The first bucket from v on by which `target` samples are covered. */
  function FirstCovering(window: seq<nat>, target: nat, v: nat): nat
    requires v < MAG_LEVELS
    decreases MAG_LEVELS - v
  {
    if CountLe(window, v) >= target || v == MAG_LEVELS - 1 then v
    else FirstCovering(window, target, v + 1)
  }

  function Quantile(window: seq<nat>, p: Ratio): nat
    requires p.Valid()
  {
    if window == [] then 0 else FirstCovering(window, Target(|window|, p), 0)
  }

  /** The slicing levels of a capture. */
  datatype Levels = Levels(noiseFloor: nat, signal: nat, threshold: nat)

  /** A rational offset as the program adds it: rounded, and saturating at the top of u16. */
  function SaturatingRaise(base: nat, num: nat, den: nat): nat
    requires den > 0
  {
    var sum := base + RoundDiv(num, den);
    if sum > MAX_U16 then MAX_U16 else sum
  }

  function Excess(high: nat, low: nat): nat {
    if high > low then high - low else 0
  }

  function LevelsOf(window: seq<nat>, frac: Ratio): Levels
    requires frac.Valid()
  {
    LevelsBetween(Quantile(window, MEDIAN), Quantile(window, SIGNAL), frac)
  }

  /** The threshold the fraction of the way up from the floor. */
  function LevelsBetween(floor: nat, signal: nat, frac: Ratio): Levels
    requires frac.Valid()
  {
    Levels(floor, signal, SaturatingRaise(floor, Excess(signal, floor) * frac.num, frac.den))
  }

  class AmplitudeHistogram {
    const counts: array<nat>
    var total: nat
    var peak: nat
    /** Every magnitude counted so far, in order. */
    ghost var window: seq<nat>

    ghost predicate Valid()
      reads this, counts
    {
      && counts.Length == MAG_LEVELS
      && total == |window|
      && forall v :: 0 <= v < MAG_LEVELS ==> counts[v] == CountAt(window, v)
    }

    constructor ()
      ensures Valid() && fresh(counts) && window == [] && peak == 0
    {
      counts := new nat[MAG_LEVELS](_ => 0);
      total, peak, window := 0, 0, [];
    }

    /** Overwrites the histogram with a new one. */
    method Reset()
      requires Valid()
      modifies this, counts
      ensures Valid() && window == [] && peak == 0
    {
      for v := 0 to MAG_LEVELS
        invariant forall u :: 0 <= u < v ==> counts[u] == 0
      {
        counts[v] := 0;
      }
      total, peak, window := 0, 0, [];
    }

    method AddMagnitude(magnitude: nat)
      requires Valid()
      modifies this, counts
      ensures Valid() && window == old(window) + [magnitude]
      ensures peak == if magnitude > old(peak) then magnitude else old(peak)
    {
      var bucket := if magnitude < MAG_LEVELS - 1 then magnitude else MAG_LEVELS - 1;
      counts[bucket] := counts[bucket] + 1;
      total := total + 1;
      peak := if magnitude > peak then magnitude else peak;
      assert Front(window + [magnitude]) == window;
      window := window + [magnitude];
    }

    /** The walk over the counts finds the quantile of what they count. */
    method Percentile(p: Ratio) returns (value: nat)
      requires Valid() && p.Valid()
      ensures value == Quantile(window, p)
    {
      if total == 0 {
        return 0;
      }
      var target := Target(total, p);
      var acc: nat := 0;
      NoneBelowZero(window);
      for v := 0 to MAG_LEVELS
        invariant acc == CountLe(window, v - 1)
        invariant v < MAG_LEVELS ==> Quantile(window, p) == FirstCovering(window, target, v)
        invariant v == MAG_LEVELS ==> Quantile(window, p) == MAG_LEVELS - 1
      {
        CountSplits(window, v);
        acc := acc + counts[v];
        if acc >= target {
          return v;
        }
      }
      return MAG_LEVELS - 1;
    }

    /** The two-pass path's levels. */
    method GetLevels(frac: Ratio) returns (levels: Levels)
      requires Valid() && frac.Valid()
      ensures levels == LevelsOf(window, frac)
    {
      var noiseFloor := Percentile(MEDIAN);
      var signal := Percentile(SIGNAL);
      levels := LevelsBetween(noiseFloor, signal, frac);
    }
  }

  lemma {:induction false} CountSplits(window: seq<nat>, v: nat)
    ensures CountLe(window, v) == CountLe(window, v - 1) + CountAt(window, v)
  {
    if window != [] {
      CountSplits(Front(window), v);
    }
  }

  lemma {:induction false} NoneBelowZero(window: seq<nat>)
    ensures CountLe(window, -1) == 0
  {
    if window != [] {
      NoneBelowZero(Front(window));
    }
  }

  lemma {:induction false} AllUpToTop(window: seq<nat>)
    ensures CountLe(window, MAG_LEVELS - 1) == |window|
  {
    if window != [] {
      AllUpToTop(Front(window));
    }
  }

  lemma {:induction false} CountLeMonotone(window: seq<nat>, v: int, v': int)
    requires v <= v'
    ensures CountLe(window, v) <= CountLe(window, v')
  {
    if window != [] {
      CountLeMonotone(Front(window), v, v');
    }
  }

  /** The walk stops at the least covering bucket. */
  lemma {:induction false} FirstCoveringIsLeast(window: seq<nat>, target: nat, v: nat)
    requires v < MAG_LEVELS && target <= |window|
    ensures var r := FirstCovering(window, target, v);
      && v <= r < MAG_LEVELS
      && CountLe(window, r) >= target
      && (r > v ==> CountLe(window, r - 1) < target)
    decreases MAG_LEVELS - v
  {
    AllUpToTop(window);
    if CountLe(window, v) < target {
      FirstCoveringIsLeast(window, target, v + 1);
    }
  }

  lemma {:induction false} TargetInRange(total: nat, p: Ratio)
    requires p.Valid() && total > 0 && 0 < p.num <= p.den
    ensures 1 <= Target(total, p) <= total
  {
    var t := Target(total, p);
    MulMonotone(p.num, p.den, total);
    assert total * p.num > 0;
    SpacedMultiples(total, t, p.den);
    assert p.den * (t - 1) == p.den * t - p.den;
  }

  /**
   * For a quantile in (0, 1] the bucket walk yields an order statistic: the least magnitude such that
   * ceil(p * total) samples are at or below it, equivalently the one bucket every smaller bucket
   * falls short of and every bucket from it on reaches.
   */
  lemma {:induction false} QuantileIsOrderStatistic(window: seq<nat>, p: Ratio, v: nat)
    requires window != [] && p.Valid() && 0 < p.num <= p.den && v < MAG_LEVELS
    ensures CountLe(window, v) >= Target(|window|, p) <==> v >= Quantile(window, p)
  {
    var target := Target(|window|, p);
    TargetInRange(|window|, p);
    FirstCoveringIsLeast(window, target, 0);
    var r := Quantile(window, p);
    if v >= r {
      CountLeMonotone(window, r, v);
    } else {
      CountLeMonotone(window, v, r - 1);
    }
  }

  /** The samples of a window that are at or below v. */
  function AtMost(window: seq<nat>, v: nat): set<nat> {
    set i: nat | i < |window| && window[i] <= v
  }

  /** Below the top bucket the counts are of samples, one by one. */
  lemma {:induction false} CountsSamples(window: seq<nat>, v: nat)
    requires v < MAG_LEVELS - 1
    ensures CountLe(window, v) == |AtMost(window, v)|
  {
    if window == [] {
      assert AtMost(window, v) == {};
    } else {
      var front, last: nat := Front(window), |window| - 1;
      CountsSamples(front, v);
      assert forall i: nat :: i < |front| ==> front[i] == window[i];
      assert last !in AtMost(front, v);
      assert AtMost(window, v) == if window[last] <= v then AtMost(front, v) + {last} else AtMost(front, v);
    }
  }

  /** No magnitude reaches the top bucket, so every one is counted as itself. */
  lemma {:induction false} MagnitudesAreCounted(samples: seq<(Amplitude, Amplitude)>, k: nat)
    requires k < |samples|
    ensures var magnitude := Abs(samples[k].0) + Abs(samples[k].1);
      Envelope(Interleaved(samples))[k] == magnitude == Bucket(magnitude) < MAG_LEVELS - 1
  {
    EnvelopeIsL1(samples);
    assert Envelope(Interleaved(samples))[k] == Abs(samples[k].0) + Abs(samples[k].1) <= 256;
  }

  /** The least magnitude that the fraction p of the window is at or below. */
  ghost predicate IsQuantile(window: seq<nat>, p: Ratio, v: nat) {
    && v < MAG_LEVELS && p.den * CountLe(window, v) >= |window| * p.num
    && (v > 0 ==> p.den * CountLe(window, v - 1) < |window| * p.num)
  }

  lemma {:induction false} TargetCovers(total: nat, p: Ratio, n: nat)
    requires p.Valid()
    ensures n >= Target(total, p) <==> p.den * n >= total * p.num
  {
    var t := Target(total, p);
    if n >= t {
      MulMonotone(t, n, p.den);
    } else {
      MulMonotone(n, t - 1, p.den);
    }
  }

  /** The bucket walk finds that magnitude and no other. */
  lemma {:induction false} QuantileExactly(window: seq<nat>, p: Ratio, v: nat)
    requires window != [] && p.Valid() && 0 < p.num <= p.den
    ensures IsQuantile(window, p, v) <==> v == Quantile(window, p)
  {
    QuantileMonotone(window, p, p);
    if v < MAG_LEVELS {
      TargetCovers(|window|, p, CountLe(window, v));
      QuantileIsOrderStatistic(window, p, v);
      if v > 0 {
        TargetCovers(|window|, p, CountLe(window, v - 1));
        QuantileIsOrderStatistic(window, p, v - 1);
      }
    }
  }

  /** r is num / den to the nearest integer, a half going up. */
  predicate Nearest(r: nat, num: nat, den: nat) {
    2 * num < 2 * den * r + den && 2 * den * r <= 2 * num + den
  }

  /** A level r above the base, as far as 16 bits go. */
  function Raised(base: nat, r: nat): nat {
    if base + r < MAX_U16 then base + r else MAX_U16
  }

  lemma {:induction false} RaisedExactly(base: nat, r: nat, num: nat, den: nat)
    requires den > 0 && Nearest(r, num, den)
    ensures SaturatingRaise(base, num, den) == Raised(base, r)
  {
    RoundDivUnique(num, den, r);
  }

  /** The rise is the fraction of the way from low to high. */
  predicate IsPartOf(rise: nat, frac: Ratio, low: nat, high: nat) {
    low <= high && Nearest(rise, (high - low) * frac.num, frac.den)
  }

  lemma {:induction false} ThresholdBetween(floor: nat, signal: nat, frac: Ratio, rise: nat)
    requires frac.Valid() && IsPartOf(rise, frac, floor, signal)
    ensures LevelsBetween(floor, signal, frac) == Levels(floor, signal, Raised(floor, rise))
  {
    RaisedExactly(floor, rise, (signal - floor) * frac.num, frac.den);
  }

  /**
   * The levels of a capture, from its counts alone: half of the samples are at or below the noise
   * floor and 99.9% at or below the signal, neither being true of any smaller magnitude, and the
   * threshold is the rounded fraction of the way between.
   */
  lemma {:induction false} LevelsExactly(window: seq<nat>, frac: Ratio, floor: nat, signal: nat, rise: nat)
    requires window != [] && frac.Valid()
    requires IsQuantile(window, Ratio(1, 2), floor) && IsQuantile(window, Ratio(999, 1000), signal)
    requires IsPartOf(rise, frac, floor, signal)
    ensures LevelsOf(window, frac) == Levels(floor, signal, Raised(floor, rise))
  {
    QuantileExactly(window, MEDIAN, floor);
    QuantileExactly(window, SIGNAL, signal);
    ThresholdBetween(floor, signal, frac, rise);
  }

  /** Such numbers are in order. */
  lemma {:induction false} QuantilesOrdered(window: seq<nat>, floor: nat, quartile: nat, signal: nat)
    requires window != [] && IsQuantile(window, MEDIAN, floor)
    requires IsQuantile(window, QUARTILE, quartile) && IsQuantile(window, SIGNAL, signal)
    ensures floor <= quartile <= signal
  {
    QuantileExactly(window, MEDIAN, floor);
    QuantileExactly(window, QUARTILE, quartile);
    QuantileExactly(window, SIGNAL, signal);
    QuantileMonotone(window, MEDIAN, QUARTILE);
    QuantileMonotone(window, QUARTILE, SIGNAL);
  }

  /** Covering a larger quantile covers a smaller one. */
  lemma {:induction false} CoversSmaller(total: nat, t: nat, p: Ratio, q: Ratio)
    requires q.Valid() && p.num * q.den <= q.num * p.den
    requires q.den * t >= total * q.num
    ensures p.den * t >= total * p.num
  {
    MulMonotone(total * q.num, q.den * t, p.den);
    MulMonotone(p.num * q.den, q.num * p.den, total);
    Reassociate(total, p.num, q.den);
    Reassociate(total, q.num, p.den);
    Reassociate(p.den, q.den, t);
    CancelFactor(total * p.num, p.den * t, q.den);
  }

  lemma {:induction false} Reassociate(x: int, y: int, z: int)
    ensures x * (y * z) == z * (x * y) == y * (x * z)
  {
  }

  lemma {:induction false} CancelFactor(x: nat, y: nat, k: nat)
    requires k > 0 && k * x <= k * y
    ensures x <= y
  {
    SpacedMultiples(y, x, k);
  }

  lemma {:induction false} TargetMonotone(total: nat, p: Ratio, q: Ratio)
    requires p.Valid() && q.Valid() && p.num * q.den <= q.num * p.den
    ensures Target(total, p) <= Target(total, q)
  {
    var s, t := Target(total, p), Target(total, q);
    CoversSmaller(total, t, p, q);
    if s > 0 {
      CancelStrict(s - 1, t, p.den);
    }
  }

  lemma {:induction false} CancelStrict(x: nat, y: nat, k: nat)
    requires k * x < k * y
    ensures x < y
  {
    MulMonotone(y, if x < y then y else x, k);
  }

  /** A larger quantile is never a smaller magnitude. */
  lemma {:induction false} QuantileMonotone(window: seq<nat>, p: Ratio, q: Ratio)
    requires p.Valid() && q.Valid() && 0 < p.num <= p.den && 0 < q.num <= q.den
    requires p.num * q.den <= q.num * p.den
    ensures Quantile(window, p) <= Quantile(window, q) < MAG_LEVELS
  {
    if window != [] {
      TargetInRange(|window|, q);
      FirstCoveringIsLeast(window, Target(|window|, q), 0);
      TargetMonotone(|window|, p, q);
      QuantileIsOrderStatistic(window, q, Quantile(window, q));
      QuantileIsOrderStatistic(window, p, Quantile(window, q));
    }
  }

  /** If enough samples are at or below n, so is the quantile, whatever the remaining samples are. */
  lemma {:induction false} QuantileRobust(window: seq<nat>, p: Ratio, n: nat)
    requires p.Valid() && 0 < p.num <= p.den && n < MAG_LEVELS
    requires CountLe(window, n) >= Target(|window|, p)
    ensures Quantile(window, p) <= n
  {
    if window != [] {
      QuantileIsOrderStatistic(window, p, n);
    }
  }

  lemma {:induction false} ScaledByFraction(x: nat, frac: Ratio)
    requires frac.Valid() && frac.num <= frac.den
    ensures RoundDiv(x * frac.num, frac.den) <= x
  {
    MulMonotone(frac.num, frac.den, x);
    RoundDivMonotone(x * frac.num, x * frac.den, frac.den);
    RoundDivUnique(x * frac.den, frac.den, x);
  }

  /** For a slicing fraction in [0, 1] the threshold sits between noise and signal. */
  lemma {:induction false} LevelsOrdered(window: seq<nat>, frac: Ratio)
    requires frac.Valid() && frac.num <= frac.den
    ensures var l := LevelsOf(window, frac); l.noiseFloor <= l.threshold <= l.signal < MAG_LEVELS
  {
    QuantileMonotone(window, MEDIAN, SIGNAL);
    var l := LevelsOf(window, frac);
    ScaledByFraction(Excess(l.signal, l.noiseFloor), frac);
  }

  /** Outliers cannot drag the threshold: if 99.9% of the samples are at most n, so is the threshold. */
  lemma {:induction false} LevelsRobust(window: seq<nat>, frac: Ratio, n: nat)
    requires frac.Valid() && frac.num <= frac.den && n < MAG_LEVELS
    requires CountLe(window, n) >= Target(|window|, SIGNAL)
    ensures LevelsOf(window, frac).threshold <= n
  {
    QuantileRobust(window, SIGNAL, n);
    LevelsOrdered(window, frac);
  }
}
