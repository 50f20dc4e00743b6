/**
 * `create_grade_based_mask`: from the DPCA feature map and the grade's
 * percentile threshold to the final pill mask. The order is the source's:
 * threshold, union with the strong local maxima, morphological opening and
 * closing, and last the removal of components smaller than 20 pixels.
 *
 * Inputs instead of computations: the threshold (`np.percentile` of the map
 * at `Grading.ThresholdPercentile(grade)`), the 7x7 grey dilation of the map
 * (`cv2.dilate`), the opening-then-closing (`cv2.morphologyEx`, a function
 * parameter) and the component labelling of its result (`skimage.measure.label`).
 */
module GradeMask {
  import opened Masks

  /** `min_area`: components smaller than this many pixels are discarded as noise. */
  const MinArea: nat := 20

  /** `feature_map > threshold`. */
  function ThresholdMask(fm: FeatureMap, t: real): (m: Mask)
    ensures |m| == |fm|
  {
    seq(|fm|, p requires 0 <= p < |fm| => fm[p] > t)
  }

  /**
   * `(feature_map == local_max) & (feature_map > threshold * 1.2)`: the pixels
   * equal to the maximum of their 7x7 neighbourhood and 20% above the threshold.
   */
  function LocalMaxMask(fm: FeatureMap, dilated: FeatureMap, t: real): (m: Mask)
    requires |dilated| == |fm|
    ensures |m| == |fm|
  {
    seq(|fm|, p requires 0 <= p < |fm| => fm[p] == dilated[p] && fm[p] > t * 1.2)
  }

  /**
   * `enhanced_mask = mask.copy(); enhanced_mask[local_max_mask] = 1`: the
   * copy is updated in place at the local maxima.
   */
  method EnhanceWithMaxima(mask: Mask, localMax: Mask) returns (enhanced: Mask)
    requires |localMax| == |mask|
    ensures |enhanced| == |mask|
    ensures forall p :: 0 <= p < |mask| && mask[p] ==> enhanced[p]
    ensures forall p :: 0 <= p < |mask| && localMax[p] ==> enhanced[p]
    ensures forall p :: 0 <= p < |mask| && enhanced[p] ==> mask[p] || localMax[p]
  {
    var a := new bool[|mask|](p requires 0 <= p < |mask| => mask[p]);
    var p := 0;
    while p < a.Length
      invariant 0 <= p <= a.Length
      invariant forall q :: 0 <= q < a.Length ==> a[q] == (mask[q] || (q < p && localMax[q]))
    {
      if localMax[p] {
        a[p] := true;
      }
      p := p + 1;
    }
    enhanced := a[..];
  }

  /**
   * With a non-negative threshold every local maximum that passes the 1.2x
   * test is already above the threshold, so the union adds no pixel. The DPCA
   * feature map is a variance plus a gradient magnitude, never negative, so
   * its percentile threshold is never negative either.
   */
  lemma MaximaAlreadyThresholded(fm: FeatureMap, dilated: FeatureMap, t: real, p: nat)
    requires |dilated| == |fm| && p < |fm| && t >= 0.0
    requires LocalMaxMask(fm, dilated, t)[p]
    ensures ThresholdMask(fm, t)[p]
  {
  }

  /**
   * The area filter: the pixels of every region of at least `MinArea` pixels
   * are set, all others stay clear. The outer loop visits the regions in
   * label order, the inner loop is `final_mask[labeled_mask == region.label] = 1`.
   */
  method FilterSmallRegions(labels: Labels) returns (final: Mask)
    ensures |final| == |labels|
    ensures forall p :: 0 <= p < |labels| ==>
      (final[p] <==> labels[p] > 0 && Area(labels, labels[p]) >= MinArea)
  {
    var a := new bool[|labels|](p => false);
    var k := MaxLabel(labels);
    var l := 1;
    while l <= k
      invariant 1 <= l <= k + 1
      invariant forall q :: 0 <= q < a.Length ==>
        (a[q] <==> 0 < labels[q] < l && Area(labels, labels[q]) >= MinArea)
    {
      if Area(labels, l) >= MinArea {
        var p := 0;
        while p < a.Length
          invariant 0 <= p <= a.Length
          invariant forall q :: 0 <= q < a.Length ==>
            (a[q] <==> (0 < labels[q] < l && Area(labels, labels[q]) >= MinArea) ||
                       (q < p && labels[q] == l))
        {
          if labels[p] == l {
            a[p] := true;
          }
          p := p + 1;
        }
      }
      l := l + 1;
    }
    final := a[..];
  }

  /**
   * The whole post-filter. `morphology` is the opening (5x5 ellipse) followed
   * by the closing (3x3 ellipse); `labels` labels its output.
   */
  method CreateGradeBasedMask(
    fm: FeatureMap, dilated: FeatureMap, t: real,
    morphology: Mask -> Mask, labels: Labels) returns (final: Mask)
    requires |dilated| == |fm| && |labels| == |fm|
    requires LabelsOf(morphology(Union(ThresholdMask(fm, t), LocalMaxMask(fm, dilated, t))), labels)
    ensures |final| == |fm|
    ensures forall p :: 0 <= p < |fm| ==>
      (final[p] <==> labels[p] > 0 && Area(labels, labels[p]) >= MinArea)
    ensures forall p :: 0 <= p < |fm| && final[p] ==>
      morphology(Union(ThresholdMask(fm, t), LocalMaxMask(fm, dilated, t)))[p]
  {
    var mask := ThresholdMask(fm, t);
    var localMax := LocalMaxMask(fm, dilated, t);
    var enhanced := EnhanceWithMaxima(mask, localMax);
    assert enhanced == Union(mask, localMax);
    assert LabelsOf(morphology(enhanced), labels);
    final := FilterSmallRegions(labels);
  }

  /** Pixel-wise union, the specification of `EnhanceWithMaxima`. */
  function Union(a: Mask, b: Mask): (u: Mask)
    requires |b| == |a|
    ensures |u| == |a|
  {
    seq(|a|, p requires 0 <= p < |a| => a[p] || b[p])
  }

  /** The thresholded pixels are all in the enhanced mask. */
  lemma ThresholdWithinEnhanced(fm: FeatureMap, dilated: FeatureMap, t: real, p: nat)
    requires |dilated| == |fm| && p < |fm|
    requires ThresholdMask(fm, t)[p]
    ensures Union(ThresholdMask(fm, t), LocalMaxMask(fm, dilated, t))[p]
  {
  }

  /**
   * The filter only removes pixels: every pixel of its result is set in the
   * cleaned mask the labels were computed from.
   */
  lemma FilterWithinCleaned(cleaned: Mask, labels: Labels, final: Mask, p: nat)
    requires LabelsOf(cleaned, labels) && |final| == |labels| && p < |labels|
    requires forall q :: 0 <= q < |labels| ==>
      (final[q] <==> labels[q] > 0 && Area(labels, labels[q]) >= MinArea)
    requires final[p]
    ensures cleaned[p]
  {
  }

  /**
   * Components are kept or dropped whole: two pixels of one component are
   * both in the result or both out, and a kept component has at least
   * `MinArea` pixels, all of them in the result.
   */
  lemma FilterKeepsWholeComponents(labels: Labels, final: Mask, p: nat, q: nat)
    requires |final| == |labels| && p < |labels| && q < |labels|
    requires forall r :: 0 <= r < |labels| ==>
      (final[r] <==> labels[r] > 0 && Area(labels, labels[r]) >= MinArea)
    requires labels[p] == labels[q] > 0
    ensures final[p] == final[q]
    ensures final[p] ==> Area(labels, labels[p]) >= MinArea
  {
  }

  /** Every surviving pixel lies in a component of at least `MinArea` surviving pixels. */
  lemma {:induction false} SurvivorsCountedInFinal(labels: Labels, final: Mask, l: nat)
    requires |final| == |labels| && l > 0
    requires forall r :: 0 <= r < |labels| ==>
      (final[r] <==> labels[r] > 0 && Area(labels, labels[r]) >= MinArea)
    requires exists r :: 0 <= r < |labels| && labels[r] == l && final[r]
    ensures CountLabelIn(labels, final, l) == Area(labels, l) >= MinArea
  {
    var r :| 0 <= r < |labels| && labels[r] == l && final[r];
    AllOfLabelKept(labels, final, l);
  }

  /** Pixels labelled `l` that are set in `m`. */
  function CountLabelIn(labels: Labels, m: Mask, l: nat): nat
    requires |m| == |labels|
  {
    if labels == [] then 0
    else CountLabelIn(labels[..|labels| - 1], m[..|m| - 1], l)
         + (if labels[|labels| - 1] == l && m[|m| - 1] then 1 else 0)
  }

  lemma {:induction false} AllOfLabelKept(labels: Labels, m: Mask, l: nat)
    requires |m| == |labels|
    requires forall r :: 0 <= r < |labels| && labels[r] == l ==> m[r]
    ensures CountLabelIn(labels, m, l) == Area(labels, l)
  {
    if labels != [] {
      AllOfLabelKept(labels[..|labels| - 1], m[..|m| - 1], l);
    }
  }
}
