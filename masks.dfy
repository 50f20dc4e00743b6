/**
 * Binary masks, connected-component label arrays and feature maps of the
 * pilling analysis, flattened row-major into sequences (one entry per pixel).
 *
 * A label array is what scikit-image's `label` returns for a mask: 0 on the
 * background and a positive component number on every set pixel. The labelling
 * itself (8-connectivity) is not modelled; `LabelsOf` states the only property
 * the rest of the model relies on.
 */
module Masks {

  type Mask = seq<bool>
  type Labels = seq<nat>
  type FeatureMap = seq<real>

  /** `labels` is a labelling of `mask`: positive exactly on the set pixels. */
  predicate LabelsOf(mask: Mask, labels: Labels)
  {
    |labels| == |mask| &&
    forall p :: 0 <= p < |mask| ==> (labels[p] > 0 <==> mask[p])
  }

  /** Number of set pixels, `np.sum(mask > 0)`. */
  function CountSet(m: Mask): (n: nat)
    ensures n <= |m|
    ensures n == 0 <==> forall p :: 0 <= p < |m| ==> !m[p]
    ensures n == |m| <==> forall p :: 0 <= p < |m| ==> m[p]
  {
    if m == [] then 0
    else CountSet(m[..|m| - 1]) + (if m[|m| - 1] then 1 else 0)
  }

  /** Pixel area of the component numbered `l`: the pixels labelled `l`. */
  function Area(labels: Labels, l: nat): (n: nat)
    ensures n <= |labels|
    ensures n > 0 <==> exists p :: 0 <= p < |labels| && labels[p] == l
  {
    if labels == [] then 0
    else Area(labels[..|labels| - 1], l) + (if labels[|labels| - 1] == l then 1 else 0)
  }

  /** Number of pixels whose label lies in `lo..hi`. */
  function CountInRange(labels: Labels, lo: nat, hi: nat): nat
  {
    if labels == [] then 0
    else CountInRange(labels[..|labels| - 1], lo, hi)
         + (if lo <= labels[|labels| - 1] <= hi then 1 else 0)
  }

  /** The largest label (0 for an all-background or empty array). */
  function MaxLabel(labels: Labels): (k: nat)
    ensures forall p :: 0 <= p < |labels| ==> labels[p] <= k
    ensures k == 0 || exists p :: 0 <= p < |labels| && labels[p] == k
  {
    if labels == [] then 0
    else
      var k := MaxLabel(labels[..|labels| - 1]);
      if labels[|labels| - 1] > k then labels[|labels| - 1] else k
  }

  /**
   * Areas of the components numbered 1..k that have at least one pixel, in
   * label order: the order in which `regionprops` lists its regions.
   */
  function AreasUpTo(labels: Labels, k: nat): (areas: seq<nat>)
    ensures |areas| <= k
    ensures forall i :: 0 <= i < |areas| ==> 0 < areas[i] <= |labels|
  {
    if k == 0 then []
    else
      var a := Area(labels, k);
      AreasUpTo(labels, k - 1) + (if a > 0 then [a] else [])
  }

  /**
   * The region areas of a labelling, one per region, in label order: every
   * area is positive and at most the image size, and there is a region
   * exactly when some pixel carries a positive label.
   */
  function RegionAreas(labels: Labels): (areas: seq<nat>)
    ensures forall i :: 0 <= i < |areas| ==> 0 < areas[i] <= |labels|
    ensures areas == [] <==> forall p :: 0 <= p < |labels| ==> labels[p] == 0
  {
    var k := MaxLabel(labels);
    if k > 0 then
      var p :| 0 <= p < |labels| && labels[p] == k;
      AreasUpToNonEmpty(labels, k, p);
      AreasUpTo(labels, k)
    else
      AreasUpToEmpty(labels, k);
      AreasUpTo(labels, k)
  }

  /** With no positive label there is no region below any bound. */
  lemma {:induction false} AreasUpToEmpty(labels: Labels, k: nat)
    requires forall p :: 0 <= p < |labels| ==> labels[p] == 0
    ensures AreasUpTo(labels, k) == []
  {
    if k > 0 {
      AreasUpToEmpty(labels, k - 1);
    }
  }

  function Sum(s: seq<nat>): nat
  {
    if s == [] then 0 else Sum(s[..|s| - 1]) + s[|s| - 1]
  }

  /** Splitting the label range 1..k at k: pixels labelled k are counted once. */
  lemma {:induction false} CountInRangeSplit(labels: Labels, k: nat)
    requires k >= 1
    ensures CountInRange(labels, 1, k) == CountInRange(labels, 1, k - 1) + Area(labels, k)
  {
    if labels != [] {
      CountInRangeSplit(labels[..|labels| - 1], k);
    }
  }

  /** The areas of the components 1..k add up to the pixels labelled 1..k. */
  lemma {:induction false} SumAreasUpTo(labels: Labels, k: nat)
    ensures Sum(AreasUpTo(labels, k)) == CountInRange(labels, 1, k)
  {
    if k == 0 {
      ZeroRangeEmpty(labels);
    } else {
      SumAreasUpTo(labels, k - 1);
      CountInRangeSplit(labels, k);
      var prev := AreasUpTo(labels, k - 1);
      var a := Area(labels, k);
      if a > 0 {
        assert AreasUpTo(labels, k) == prev + [a];
        assert (prev + [a])[..|prev + [a]| - 1] == prev;
      } else {
        assert AreasUpTo(labels, k) == prev;
      }
    }
  }

  lemma {:induction false} ZeroRangeEmpty(labels: Labels)
    ensures CountInRange(labels, 1, 0) == 0
  {
    if labels != [] {
      ZeroRangeEmpty(labels[..|labels| - 1]);
    }
  }

  /** Pixels labelled 1..MaxLabel are exactly the set pixels of the mask. */
  lemma {:induction false} CountAllLabels(mask: Mask, labels: Labels, k: nat)
    requires LabelsOf(mask, labels)
    requires forall p :: 0 <= p < |labels| ==> labels[p] <= k
    ensures CountInRange(labels, 1, k) == CountSet(mask)
  {
    if labels != [] {
      var n := |labels| - 1;
      assert LabelsOf(mask[..n], labels[..n]);
      CountAllLabels(mask[..n], labels[..n], k);
    }
  }

  /**
   * The region areas of a labelling of `mask` add up to the number of set
   * pixels of `mask`: every set pixel belongs to exactly one region.
   */
  lemma RegionAreasCoverMask(mask: Mask, labels: Labels)
    requires LabelsOf(mask, labels)
    ensures Sum(RegionAreas(labels)) == CountSet(mask)
  {
    SumAreasUpTo(labels, MaxLabel(labels));
    CountAllLabels(mask, labels, MaxLabel(labels));
  }

  /** Every region has area at least 1, so there are no more regions than pixels in them. */
  lemma {:induction false} SumAtLeastLength(s: seq<nat>)
    requires forall i :: 0 <= i < |s| ==> s[i] > 0
    ensures Sum(s) >= |s|
    ensures Sum(s) == 0 <==> s == []
  {
    if s != [] {
      SumAtLeastLength(s[..|s| - 1]);
    }
  }

  /** A pixel labelled in 1..k puts at least one region below k. */
  lemma {:induction false} AreasUpToNonEmpty(labels: Labels, k: nat, p: nat)
    requires p < |labels| && 1 <= labels[p] <= k
    ensures AreasUpTo(labels, k) != []
  {
    if labels[p] < k {
      AreasUpToNonEmpty(labels, k - 1, p);
    } else {
      assert Area(labels, k) > 0;
    }
  }
}
