/**
 * The ensemble ("Kombinerad") detector: it runs the LBP-variance, Fourier,
 * morphological and wavelet detectors and keeps a pixel when a strict majority
 * of their masks set it; the feature maps are averaged pixel by pixel.
 *
 * The four detectors themselves are floating-point image processing and are
 * not modelled: their masks and feature maps are inputs here.
 */
module Voting {
  import opened Masks
  import opened Results

  /** `vote_threshold = len(methods) // 2 + 1`. */
  function VoteThreshold(n: nat): (t: nat)
    ensures 2 * t > n && 2 * (t - 1) <= n
  {
    n / 2 + 1
  }

  /** All masks cover the same `size` pixels. */
  predicate SameSize(masks: seq<Mask>, size: nat)
  {
    forall i :: 0 <= i < |masks| ==> |masks[i]| == size
  }

  /** How many of the masks set pixel `p`: the pixel of `sum(mask.astype(float) ...)`. */
  function Votes(masks: seq<Mask>, p: nat): (v: nat)
    requires forall i :: 0 <= i < |masks| ==> p < |masks[i]|
    ensures v <= |masks|
  {
    if masks == [] then 0
    else Votes(masks[..|masks| - 1], p) + (if masks[|masks| - 1][p] then 1 else 0)
  }

  /** `combined_votes >= vote_threshold`, pixel by pixel. */
  function CombineByVote(masks: seq<Mask>, size: nat): (r: Mask)
    requires SameSize(masks, size)
    ensures |r| == size
    ensures forall p :: 0 <= p < size ==> (r[p] <==> 2 * Votes(masks, p) > |masks|)
  {
    seq(size, p requires 0 <= p < size => Votes(masks, p) >= VoteThreshold(|masks|))
  }

  /**
   * The vote is a strict majority: a pixel is kept exactly when more masks set
   * it than leave it clear.
   */
  lemma CombineIsStrictMajority(masks: seq<Mask>, size: nat, p: nat)
    requires SameSize(masks, size) && p < size
    ensures CombineByVote(masks, size)[p] <==> 2 * Votes(masks, p) > |masks|
  {
  }

  /** A pixel set by every mask of a non-empty ensemble survives the vote. */
  lemma {:induction false} UnanimousPixelKept(masks: seq<Mask>, size: nat, p: nat)
    requires SameSize(masks, size) && p < size && |masks| > 0
    requires forall i :: 0 <= i < |masks| ==> masks[i][p]
    ensures CombineByVote(masks, size)[p]
  {
    AllVotes(masks, p);
  }

  lemma {:induction false} AllVotes(masks: seq<Mask>, p: nat)
    requires forall i :: 0 <= i < |masks| ==> p < |masks[i]| && masks[i][p]
    ensures Votes(masks, p) == |masks|
  {
    if masks != [] {
      AllVotes(masks[..|masks| - 1], p);
    }
  }

  /** No two masks share a set pixel. */
  predicate PairwiseDisjoint(masks: seq<Mask>, size: nat)
    requires SameSize(masks, size)
  {
    forall i, j, p :: 0 <= i < j < |masks| && 0 <= p < size ==> !(masks[i][p] && masks[j][p])
  }

  /** Under pairwise-disjoint masks each pixel has at most one vote. */
  lemma {:induction false} DisjointVotesAtMostOne(masks: seq<Mask>, size: nat, p: nat)
    requires SameSize(masks, size) && p < size && PairwiseDisjoint(masks, size)
    ensures Votes(masks, p) <= 1
    ensures Votes(masks, p) == 1 ==> exists i :: 0 <= i < |masks| && masks[i][p]
  {
    if masks != [] {
      var init := masks[..|masks| - 1];
      assert PairwiseDisjoint(init, size);
      DisjointVotesAtMostOne(init, size, p);
      if !masks[|masks| - 1][p] && Votes(init, p) == 1 {
        var i :| 0 <= i < |init| && init[i][p];
        assert masks[i][p];
      }
    }
  }

  /**
   * Two or more masks that never set the same pixel combine to an empty mask:
   * no pixel reaches the majority. Three detectors with disjoint detections
   * therefore report no pills at all.
   */
  lemma DisjointMasksCombineEmpty(masks: seq<Mask>, size: nat)
    requires SameSize(masks, size) && |masks| >= 2 && PairwiseDisjoint(masks, size)
    ensures CombineByVote(masks, size) == seq(size, p => false)
    ensures CountSet(CombineByVote(masks, size)) == 0
  {
    forall p | 0 <= p < size
      ensures !CombineByVote(masks, size)[p]
    {
      DisjointVotesAtMostOne(masks, size, p);
    }
  }

  /** Per-pixel total of the feature maps. */
  function MapSum(maps: seq<FeatureMap>, p: nat): real
    requires forall i :: 0 <= i < |maps| ==> p < |maps[i]|
  {
    if maps == [] then 0.0 else MapSum(maps[..|maps| - 1], p) + maps[|maps| - 1][p]
  }

  /** `combined_features = sum(features) / len(features)`. */
  function AverageMaps(maps: seq<FeatureMap>, size: nat): (r: FeatureMap)
    requires |maps| > 0
    requires forall i :: 0 <= i < |maps| ==> |maps[i]| == size
    ensures |r| == size
    ensures forall p :: 0 <= p < size ==> r[p] * (|maps| as real) == MapSum(maps, p)
  {
    seq(size, p requires 0 <= p < size => MapSum(maps, p) / (|maps| as real))
  }

  /** Every map at least `lo` and at most `hi` at `p` bounds their sum by `n*lo` and `n*hi`. */
  lemma {:induction false} MapSumBounds(maps: seq<FeatureMap>, p: nat, lo: real, hi: real)
    requires forall i :: 0 <= i < |maps| ==> p < |maps[i]| && lo <= maps[i][p] <= hi
    ensures (|maps| as real) * lo <= MapSum(maps, p) <= (|maps| as real) * hi
  {
    if maps != [] {
      MapSumBounds(maps[..|maps| - 1], p, lo, hi);
    }
  }

  /** The averaged feature map stays within the range of the input maps at every pixel. */
  lemma AverageWithinBounds(maps: seq<FeatureMap>, size: nat, p: nat, lo: real, hi: real)
    requires |maps| > 0 && p < size
    requires forall i :: 0 <= i < |maps| ==> |maps[i]| == size && lo <= maps[i][p] <= hi
    ensures lo <= AverageMaps(maps, size)[p] <= hi
  {
    MapSumBounds(maps, p, lo, hi);
    var n := |maps| as real;
    assert AverageMaps(maps, size)[p] == MapSum(maps, p) / n;
    assert n * lo <= MapSum(maps, p) <= n * hi;
  }

  /** The average of four maps, times 4, is their pixel-wise sum. */
  lemma AverageOfFour(a: FeatureMap, b: FeatureMap, c: FeatureMap, d: FeatureMap, size: nat)
    requires |a| == |b| == |c| == |d| == size
    ensures |AverageMaps([a, b, c, d], size)| == size
    ensures forall p :: 0 <= p < size ==> AverageMaps([a, b, c, d], size)[p] * 4.0 == a[p] + b[p] + c[p] + d[p]
  {
    MapSumOfFour(a, b, c, d, size);
  }

  /** Four masks combine to the pixels that at least three of them set. */
  lemma CombineOfFour(a: Mask, b: Mask, c: Mask, d: Mask, size: nat)
    requires |a| == |b| == |c| == |d| == size
    ensures |CombineByVote([a, b, c, d], size)| == size
    ensures forall p :: 0 <= p < size ==> (CombineByVote([a, b, c, d], size)[p] <==>
      (if a[p] then 1 else 0) + (if b[p] then 1 else 0) + (if c[p] then 1 else 0) + (if d[p] then 1 else 0) >= 3)
  {
    VotesOfFour(a, b, c, d, size);
  }

  lemma MapSumOfFour(a: FeatureMap, b: FeatureMap, c: FeatureMap, d: FeatureMap, size: nat)
    requires |a| == |b| == |c| == |d| == size
    ensures forall p :: 0 <= p < size ==> MapSum([a, b, c, d], p) == a[p] + b[p] + c[p] + d[p]
  {
    assert [a, b, c, d][..3] == [a, b, c] && [a, b, c][..2] == [a, b];
    assert [a, b][..1] == [a] && [a][..0] == [];
    forall p | 0 <= p < size
      ensures MapSum([a, b, c, d], p) == a[p] + b[p] + c[p] + d[p]
    {
      assert MapSum([a], p) == a[p];
      assert MapSum([a, b], p) == MapSum([a], p) + b[p];
      assert MapSum([a, b, c], p) == MapSum([a, b], p) + c[p];
    }
  }

  lemma VotesOfFour(a: Mask, b: Mask, c: Mask, d: Mask, size: nat)
    requires |a| == |b| == |c| == |d| == size
    ensures forall p :: 0 <= p < size ==>
      (Votes([a, b, c, d], p) ==
       (if a[p] then 1 else 0) + (if b[p] then 1 else 0) + (if c[p] then 1 else 0) + (if d[p] then 1 else 0))
  {
    assert [a, b, c, d][..3] == [a, b, c] && [a, b, c][..2] == [a, b];
    assert [a, b][..1] == [a] && [a][..0] == [];
    forall p | 0 <= p < size
      ensures Votes([a, b, c, d], p) ==
        (if a[p] then 1 else 0) + (if b[p] then 1 else 0) + (if c[p] then 1 else 0) + (if d[p] then 1 else 0)
    {
      assert Votes([a], p) == (if a[p] then 1 else 0);
      assert Votes([a, b], p) == Votes([a], p) + (if b[p] then 1 else 0);
      assert Votes([a, b, c], p) == Votes([a, b], p) + (if c[p] then 1 else 0);
    }
  }

  /** `stats['method_votes']`: the audit record of one ensemble vote. */
  datatype MethodVotes = MethodVotes(
    lbpPixels: nat,
    fourierPixels: nat,
    morphPixels: nat,
    waveletPixels: nat,
    voteThreshold: nat,
    totalMethods: nat)

  datatype CombinedDetection = CombinedDetection(mask: Mask, features: FeatureMap, votes: MethodVotes)

  /**
   * `detect_nops_combined`. Without PyWavelets, or without a loaded image, it
   * returns no result. Otherwise the wavelet detector always runs, so the
   * ensemble always has four members and the threshold is 3 of 4.
   */
  function DetectCombined(
    pywtAvailable: bool, imageLoaded: bool, size: nat,
    lbpMask: Mask, fourierMask: Mask, morphMask: Mask, waveletMask: Mask,
    lbpFeatures: FeatureMap, fourierFeatures: FeatureMap,
    morphFeatures: FeatureMap, waveletFeatures: FeatureMap): (r: Option<CombinedDetection>)
    requires |lbpMask| == |fourierMask| == |morphMask| == |waveletMask| == size
    requires |lbpFeatures| == |fourierFeatures| == |morphFeatures| == |waveletFeatures| == size
    ensures r.Some? <==> pywtAvailable && imageLoaded
    ensures r.Some? ==> r.value.votes.voteThreshold == 3 && r.value.votes.totalMethods == 4
    ensures r.Some? ==> |r.value.mask| == size && forall p :: 0 <= p < size ==>
      (r.value.mask[p] <==>
        (if lbpMask[p] then 1 else 0) + (if fourierMask[p] then 1 else 0) +
        (if morphMask[p] then 1 else 0) + (if waveletMask[p] then 1 else 0) >= 3)
    ensures r.Some? ==> |r.value.features| == size && forall p :: 0 <= p < size ==>
      r.value.features[p] * 4.0 == lbpFeatures[p] + fourierFeatures[p] + morphFeatures[p] + waveletFeatures[p]
    ensures r.Some? ==>
      r.value.votes.lbpPixels == CountSet(lbpMask) && r.value.votes.fourierPixels == CountSet(fourierMask) &&
      r.value.votes.morphPixels == CountSet(morphMask) && r.value.votes.waveletPixels == CountSet(waveletMask)
  {
    if !pywtAvailable || !imageLoaded then None
    else
      var masks := [lbpMask, fourierMask, morphMask, waveletMask];
      var features := [lbpFeatures, fourierFeatures, morphFeatures, waveletFeatures];
      CombineOfFour(lbpMask, fourierMask, morphMask, waveletMask, size);
      AverageOfFour(lbpFeatures, fourierFeatures, morphFeatures, waveletFeatures, size);
      var votes := MethodVotes(CountSet(lbpMask), CountSet(fourierMask), CountSet(morphMask),
                               CountSet(waveletMask), VoteThreshold(|masks|), |masks|);
      Some(CombinedDetection(CombineByVote(masks, size), AverageMaps(features, size), votes))
  }
}
