/**
 * `calculate_pilling_stats`, the region statistics engine every detector ends
 * with: pixel counts, the region (pill) count, the min/mean/max region area,
 * the density per 10 000 pixels and the mean and maximum of the feature map.
 *
 * The mask's labelling (`skimage.measure.label`) is an input; divisions are
 * over `real`. The area standard deviation, the circularity and the feature
 * map's standard deviation are not modelled.
 */
module Stats {
  import opened Masks
  import opened Results

  datatype PillingStats = PillingStats(
    totalPixels: nat,
    nopPixels: nat,
    nopPercentage: real,
    numPills: nat,
    avgPillArea: real,
    pillDensity: real,
    maxPillArea: nat,
    minPillArea: nat,
    meanIntensity: real,
    maxIntensity: real)

  /** An empty mask: `np.max` of the (equally empty) feature map raises. */
  datatype StatsError = EmptyImage

  function SeqMax(s: seq<nat>): (m: nat)
    requires |s| > 0
    ensures forall i :: 0 <= i < |s| ==> s[i] <= m
    ensures exists i :: 0 <= i < |s| && s[i] == m
  {
    if |s| == 1 then s[0]
    else
      var m := SeqMax(s[..|s| - 1]);
      if s[|s| - 1] > m then s[|s| - 1] else m
  }

  function SeqMin(s: seq<nat>): (m: nat)
    requires |s| > 0
    ensures forall i :: 0 <= i < |s| ==> m <= s[i]
    ensures exists i :: 0 <= i < |s| && s[i] == m
  {
    if |s| == 1 then s[0]
    else
      var m := SeqMin(s[..|s| - 1]);
      if s[|s| - 1] < m then s[|s| - 1] else m
  }

  function RealSum(s: seq<real>): real
  {
    if s == [] then 0.0 else RealSum(s[..|s| - 1]) + s[|s| - 1]
  }

  function RealMax(s: seq<real>): (m: real)
    requires |s| > 0
    ensures forall i :: 0 <= i < |s| ==> s[i] <= m
    ensures exists i :: 0 <= i < |s| && s[i] == m
  {
    if |s| == 1 then s[0]
    else
      var m := RealMax(s[..|s| - 1]);
      if s[|s| - 1] > m then s[|s| - 1] else m
  }

  /** `(nop_pixels / total_pixels) * 100`. */
  function Percentage(part: nat, total: nat): (r: real)
    requires total > 0
    ensures r * (total as real) == (part as real) * 100.0
  {
    (part as real / total as real) * 100.0
  }

  /** `num_pills / (total_pixels / 10000)`: regions per 10 000 pixels. */
  function Density(count: nat, total: nat): (d: real)
    requires total > 0
    ensures d * (total as real) == (count as real) * 10000.0
  {
    count as real / (total as real / 10000.0)
  }

  /**
   * The statistics of `mask` (labelled by `labels`) and its feature map. The
   * regions are the components in label order; with no region every area
   * figure and the density are 0.
   */
  function CalculatePillingStats(mask: Mask, labels: Labels, fm: FeatureMap): (r: Result<PillingStats, StatsError>)
    requires LabelsOf(mask, labels) && |fm| == |mask|
    ensures r.Err? <==> mask == []
    ensures r.Ok? ==> r.value.totalPixels == |mask| && r.value.nopPixels == CountSet(mask)
    ensures r.Ok? ==> r.value.numPills == |RegionAreas(labels)|
  {
    if mask == [] then Err(EmptyImage)
    else
      var total := |mask|;
      var nop := CountSet(mask);
      var percentage := Percentage(nop, total);
      var areas := RegionAreas(labels);
      var numPills := |areas|;
      var mean := RealSum(fm) / (total as real);
      if numPills > 0 then
        Ok(PillingStats(total, nop, percentage, numPills,
          Sum(areas) as real / numPills as real,
          Density(numPills, total),
          SeqMax(areas), SeqMin(areas), mean, RealMax(fm)))
      else
        Ok(PillingStats(total, nop, percentage, 0, 0.0, 0.0, 0, 0, mean, RealMax(fm)))
  }

  /** The percentage of `n` out of `t`, scaled back, is `n`; it lies in 0..100 and hits the ends exactly at 0 and `t`. */
  lemma PercentOf(n: nat, t: nat)
    requires t > 0 && n <= t
    ensures Percentage(n, t) * (t as real) == (n as real) * 100.0
    ensures 0.0 <= Percentage(n, t) <= 100.0
    ensures Percentage(n, t) == 0.0 <==> n == 0
    ensures Percentage(n, t) == 100.0 <==> n == t
  {
    var q := n as real / t as real;
    assert q * (t as real) == n as real;
    assert q * 100.0 * (t as real) == (q * (t as real)) * 100.0;
    assert q > 1.0 ==> (q - 1.0) * (t as real) > 0.0;
    assert q < 0.0 ==> (0.0 - q) * (t as real) > 0.0;
  }

  /** The density times the pixel count is the region count times 10 000. */
  lemma DensityScaled(count: nat, total: nat)
    requires total > 0
    ensures Density(count, total) * (total as real) == (count as real) * 10000.0
  {
    var t := total as real;
    var d := t / 10000.0;
    assert d * 10000.0 == t;
    assert (count as real / d) * d == count as real;
  }

  /** A quotient by a positive number stays between the bounds its numerator has, scaled. */
  lemma QuotientBetween(lo: real, hi: real, sum: real, n: real)
    requires n > 0.0 && lo * n <= sum <= hi * n
    ensures lo <= sum / n <= hi
  {
    var q := sum / n;
    assert q * n == sum;
    assert q < lo ==> (lo - q) * n > 0.0;
    assert q > hi ==> (q - hi) * n > 0.0;
  }

  /** The percentage scaled back by the pixel count is the set-pixel count times 100. */
  predicate PercentageIsShare(s: PillingStats)
  {
    s.nopPercentage * (s.totalPixels as real) == (s.nopPixels as real) * 100.0
  }

  lemma PercentageFields(s: PillingStats, n: nat, t: nat)
    requires 0 < t && n <= t
    requires s.nopPercentage == Percentage(n, t) && s.totalPixels == t && s.nopPixels == n
    ensures PercentageIsShare(s)
    ensures 0.0 <= s.nopPercentage <= 100.0
    ensures s.nopPercentage == 0.0 <==> n == 0
    ensures s.nopPercentage == 100.0 <==> n == t
  {
    PercentOf(n, t);
  }

  /**
   * The pill percentage is the share of set pixels: `nop_pixels / total_pixels * 100`,
   * between 0 (no set pixel) and 100 (every pixel set).
   */
  lemma PercentageConsistent(mask: Mask, labels: Labels, fm: FeatureMap)
    requires LabelsOf(mask, labels) && |fm| == |mask| && mask != []
    ensures PercentageIsShare(CalculatePillingStats(mask, labels, fm).value)
    ensures 0.0 <= CalculatePillingStats(mask, labels, fm).value.nopPercentage <= 100.0
    ensures CalculatePillingStats(mask, labels, fm).value.nopPercentage == 0.0 <==>
      forall p :: 0 <= p < |mask| ==> !mask[p]
    ensures CalculatePillingStats(mask, labels, fm).value.nopPercentage == 100.0 <==>
      forall p :: 0 <= p < |mask| ==> mask[p]
  {
    var s := CalculatePillingStats(mask, labels, fm).value;
    PercentageFields(s, CountSet(mask), |mask|);
  }

  /**
   * No regions exactly when no pixel is set, and then every area figure and
   * the density are 0.
   */
  lemma NoPillsAllZero(mask: Mask, labels: Labels, fm: FeatureMap)
    requires LabelsOf(mask, labels) && |fm| == |mask| && mask != []
    ensures var s := CalculatePillingStats(mask, labels, fm).value;
      && (s.numPills == 0 <==> s.nopPixels == 0)
      && (s.numPills == 0 ==>
            s.avgPillArea == 0.0 && s.minPillArea == 0 && s.maxPillArea == 0 && s.pillDensity == 0.0)
  {
    RegionAreasCoverMask(mask, labels);
    SumAtLeastLength(RegionAreas(labels));
  }

  /** Elements between `lo` and `hi` bound the sum by `lo` and `hi` times the length. */
  lemma {:induction false} SumBounds(s: seq<nat>, lo: nat, hi: nat)
    requires forall i :: 0 <= i < |s| ==> lo <= s[i] <= hi
    ensures lo * |s| <= Sum(s) <= hi * |s|
  {
    if s != [] {
      var init := s[..|s| - 1];
      SumBounds(init, lo, hi);
      assert lo * |s| == lo * |init| + lo;
      assert hi * |s| == hi * |init| + hi;
    }
  }

  /**
   * The area figures of a record with at least one region: min <= mean <= max,
   * the mean is the set pixels per region, and no more regions than set pixels.
   */
  predicate AreasConsistent(s: PillingStats)
  {
    && 1 <= s.minPillArea
    && (s.minPillArea as real) <= s.avgPillArea <= (s.maxPillArea as real)
    && s.avgPillArea * (s.numPills as real) == s.nopPixels as real
    && s.numPills <= s.nopPixels
  }

  /** The density is the region count per 10 000 pixels. */
  predicate DensityPer10000(s: PillingStats)
  {
    s.pillDensity * (s.totalPixels as real) == (s.numPills as real) * 10000.0
  }

  /** The mean of a non-empty sequence of naturals lies between its minimum and maximum. */
  lemma MeanBetween(areas: seq<nat>)
    requires |areas| > 0
    ensures (SeqMin(areas) as real) <= Sum(areas) as real / |areas| as real <= (SeqMax(areas) as real)
  {
    SumBounds(areas, SeqMin(areas), SeqMax(areas));
    NatQuotientBetween(SeqMin(areas), SeqMax(areas), Sum(areas), |areas|);
  }

  lemma NatQuotientBetween(lo: nat, hi: nat, sum: nat, k: nat)
    requires k > 0 && lo * k <= sum <= hi * k
    ensures (lo as real) <= (sum as real) / (k as real) <= (hi as real)
  {
    NatProductAsReal(lo, k);
    NatProductAsReal(hi, k);
    QuotientBetween(lo as real, hi as real, sum as real, k as real);
  }

  lemma NatProductAsReal(a: nat, b: nat)
    ensures (a * b) as real == (a as real) * (b as real)
  {
  }

  lemma QuotientTimes(sum: real, n: real)
    requires n > 0.0
    ensures (sum / n) * n == sum
  {
  }

  lemma AreaFields(s: PillingStats, areas: seq<nat>)
    requires |areas| > 0 && forall i :: 0 <= i < |areas| ==> areas[i] > 0
    requires s.numPills == |areas| && s.nopPixels == Sum(areas)
    requires s.avgPillArea == Sum(areas) as real / |areas| as real
    requires s.minPillArea == SeqMin(areas) && s.maxPillArea == SeqMax(areas)
    ensures AreasConsistent(s)
  {
    SumAtLeastLength(areas);
    MeanBetween(areas);
    MeanTimesCount(s, Sum(areas), |areas|);
    var k :| 0 <= k < |areas| && areas[k] == SeqMin(areas);
  }

  lemma MeanTimesCount(s: PillingStats, sum: nat, k: nat)
    requires k > 0 && s.avgPillArea == sum as real / k as real
    requires s.numPills == k && s.nopPixels == sum
    ensures s.avgPillArea * (s.numPills as real) == s.nopPixels as real
  {
    QuotientTimes(sum as real, k as real);
  }

  lemma DensityFields(s: PillingStats, count: nat, total: nat)
    requires total > 0 && s.pillDensity == Density(count, total)
    requires s.numPills == count && s.totalPixels == total
    ensures DensityPer10000(s)
  {
    DensityScaled(count, total);
  }

  /**
   * With at least one region: min <= mean <= max area, the mean area is the
   * set pixels per region, there are no more regions than set pixels, and the
   * density is the region count per 10 000 pixels.
   */
  lemma PillAreaSummary(mask: Mask, labels: Labels, fm: FeatureMap)
    requires LabelsOf(mask, labels) && |fm| == |mask| && mask != []
    requires CalculatePillingStats(mask, labels, fm).value.numPills > 0
    ensures AreasConsistent(CalculatePillingStats(mask, labels, fm).value)
    ensures DensityPer10000(CalculatePillingStats(mask, labels, fm).value)
    ensures var s := CalculatePillingStats(mask, labels, fm).value;
      && (forall i :: 0 <= i < |RegionAreas(labels)| ==>
            s.minPillArea <= RegionAreas(labels)[i] <= s.maxPillArea)
      && (exists i :: 0 <= i < |RegionAreas(labels)| && RegionAreas(labels)[i] == s.minPillArea)
      && (exists i :: 0 <= i < |RegionAreas(labels)| && RegionAreas(labels)[i] == s.maxPillArea)
  {
    var areas := RegionAreas(labels);
    var s := CalculatePillingStats(mask, labels, fm).value;
    RegionAreasCoverMask(mask, labels);
    AreaFields(s, areas);
    DensityFields(s, |areas|, |mask|);
  }

  /** The mean intensity is the average of the feature map: times the pixel count it is the map's sum. */
  predicate MeanIsAverage(s: PillingStats, fm: FeatureMap)
  {
    s.meanIntensity * (|fm| as real) == RealSum(fm)
  }

  /**
   * The reported maximum intensity bounds the feature map and is attained; the
   * mean intensity is the map's average and at most the maximum.
   */
  lemma IntensitySummary(mask: Mask, labels: Labels, fm: FeatureMap)
    requires LabelsOf(mask, labels) && |fm| == |mask| && mask != []
    ensures var s := CalculatePillingStats(mask, labels, fm).value;
      && (forall p :: 0 <= p < |fm| ==> fm[p] <= s.maxIntensity)
      && (exists p :: 0 <= p < |fm| && fm[p] == s.maxIntensity)
      && s.meanIntensity <= s.maxIntensity
      && MeanIsAverage(s, fm)
  {
    var s := CalculatePillingStats(mask, labels, fm).value;
    IntensityFields(s, fm);
  }

  lemma IntensityFields(s: PillingStats, fm: FeatureMap)
    requires |fm| > 0
    requires s.meanIntensity == RealSum(fm) / (|fm| as real) && s.maxIntensity == RealMax(fm)
    ensures s.meanIntensity <= s.maxIntensity
    ensures MeanIsAverage(s, fm)
  {
    MeanOfMap(s.meanIntensity, s.maxIntensity, fm);
  }

  /** The mean and maximum of a feature map: the mean is the average, and at most the maximum. */
  lemma MeanOfMap(mean: real, max: real, fm: FeatureMap)
    requires |fm| > 0
    requires mean == RealSum(fm) / (|fm| as real) && max == RealMax(fm)
    ensures mean <= max
    ensures mean * (|fm| as real) == RealSum(fm)
  {
    MeanTimesSize(mean, fm);
    MeanAtMost(mean, fm, max);
  }

  lemma MeanTimesSize(mean: real, fm: FeatureMap)
    requires |fm| > 0 && mean == RealSum(fm) / (|fm| as real)
    ensures mean * (|fm| as real) == RealSum(fm)
  {
    QuotientTimes(RealSum(fm), |fm| as real);
  }

  lemma MeanAtMost(mean: real, fm: FeatureMap, hi: real)
    requires |fm| > 0 && mean == RealSum(fm) / (|fm| as real)
    requires forall i :: 0 <= i < |fm| ==> fm[i] <= hi
    ensures mean <= hi
  {
    RealSumAtMost(fm, hi);
    MeanFacts(mean, RealSum(fm), |fm| as real, hi);
  }

  /** The quotient `m` of a sum of `t` values at most `hi`: times `t` it is the sum again, and it is at most `hi`. */
  lemma MeanFacts(m: real, sum: real, t: real, hi: real)
    requires t > 0.0 && m == sum / t && sum <= t * hi
    ensures m * t == sum && m <= hi
  {
    QuotientTimes(sum, t);
    assert m > hi ==> (m - hi) * t > 0.0;
  }

  lemma {:induction false} RealSumAtMost(s: seq<real>, hi: real)
    requires forall i :: 0 <= i < |s| ==> s[i] <= hi
    ensures RealSum(s) <= (|s| as real) * hi
  {
    if s != [] {
      RealSumAtMost(s[..|s| - 1], hi);
    }
  }
}
