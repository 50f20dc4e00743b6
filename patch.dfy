/**
 * The patch-size helpers of the DPCA settings: the conversion between pixels
 * and millimetres at the chosen resolution (`size_reference`, centimetres per
 * pixel), and the recommended patch size for pills of about 3 mm.
 */
module Patch {

  /** The patch sizes the settings offer. */
  const AvailableSizes: seq<int> := [3, 5, 7, 9, 11, 13, 15, 17, 19]

  /** `target_nop_size_mm`: the diameter of an average pill. */
  const TargetNopSizeMm: real := 3.0

  /** `abs(x - target)`, the key of the nearest-size search. */
  function Dist(x: int, target: int): nat
  {
    if x >= target then x - target else target - x
  }

  /**
   * `min(sizes, key=lambda x: abs(x - target))` as an index: Python's `min`
   * returns the first element of least key, so a tie goes to the earlier entry.
   */
  function NearestIndex(sizes: seq<int>, target: int): (i: nat)
    requires |sizes| > 0
    ensures i < |sizes|
    ensures forall j :: 0 <= j < |sizes| ==> Dist(sizes[i], target) <= Dist(sizes[j], target)
    ensures forall j :: 0 <= j < i ==> Dist(sizes[j], target) > Dist(sizes[i], target)
  {
    if |sizes| == 1 then 0
    else
      var best := NearestIndex(sizes[..|sizes| - 1], target);
      if Dist(sizes[|sizes| - 1], target) < Dist(sizes[best], target) then |sizes| - 1 else best
  }

  /** `patch_size_mm = patch_size * cm_per_pixel * 10`. */
  function PatchSizeMm(patchSize: real, cmPerPixel: real): (mm: real)
    ensures cmPerPixel > 0.0 ==> mm / (cmPerPixel * 10.0) == patchSize
    ensures cmPerPixel > 0.0 && patchSize >= 0.0 ==> mm >= 0.0
  {
    patchSize * cmPerPixel * 10.0
  }

  /** `mm / (cm_per_pixel * 10)`: how many pixels span `mm` millimetres. */
  function PixelsForMm(mm: real, cmPerPixel: real): real
    requires cmPerPixel > 0.0
  {
    mm / (cmPerPixel * 10.0)
  }

  /** Converting a patch size to millimetres and back gives the patch size again. */
  lemma PatchSizeRoundTrip(patchSize: real, cmPerPixel: real)
    requires cmPerPixel > 0.0
    ensures PixelsForMm(PatchSizeMm(patchSize, cmPerPixel), cmPerPixel) == patchSize
  {
    var k := cmPerPixel * 10.0;
    assert PatchSizeMm(patchSize, cmPerPixel) == patchSize * k;
  }

  /**
   * `int(target_nop_size_pixels * 1.8)`: the unconstrained recommendation, a
   * patch 1.8 times the pixel diameter of a 3 mm pill. The argument is
   * positive, so `int` truncation is the floor.
   */
  function RawRecommendation(cmPerPixel: real): (n: int)
    requires cmPerPixel > 0.0
    ensures n >= 0
    ensures n as real <= PixelsForMm(TargetNopSizeMm, cmPerPixel) * 1.8 < n as real + 1.0
  {
    (PixelsForMm(TargetNopSizeMm, cmPerPixel) * 1.8).Floor
  }

  /** `recommend_patch_size`: the available size nearest to the raw recommendation. */
  function RecommendPatchSize(cmPerPixel: real): (s: int)
    requires cmPerPixel > 0.0
    ensures s in AvailableSizes
  {
    AvailableSizes[NearestIndex(AvailableSizes, RawRecommendation(cmPerPixel))]
  }

  /**
   * `recommended_patch_size * cm_per_pixel * 10 / 1.8`: the pill diameter the
   * patch suits, i.e. the pill whose pixel span times 1.8 is the patch size.
   */
  function NopSizeAtPatch(patchSize: int, cmPerPixel: real): (mm: real)
    ensures cmPerPixel > 0.0 ==> PixelsForMm(mm, cmPerPixel) * 1.8 == patchSize as real
  {
    PatchSizeMm(patchSize as real, cmPerPixel) / 1.8
  }

  /** Clamping to 3..19 and rounding an even value down to the odd size below it. */
  function ClosestOdd(n: int): int
  {
    if n <= 3 then 3 else if n >= 19 then 19 else if n % 2 == 1 then n else n - 1
  }

  lemma AvailableSizesAt(j: nat)
    requires j < |AvailableSizes|
    ensures AvailableSizes[j] == 3 + 2 * j
  {
  }

  /**
   * The nearest available size in closed form: values up to 3 give 3, values
   * from 19 give 19, odd values in between are kept and even values, equally
   * far from both neighbours, go to the smaller one.
   */
  lemma NearestSizeClosedForm(n: int)
    ensures AvailableSizes[NearestIndex(AvailableSizes, n)] == ClosestOdd(n)
  {
    forall j | 0 <= j < |AvailableSizes|
      ensures AvailableSizes[j] == 3 + 2 * j
    {
      AvailableSizesAt(j);
    }
    NearestOddSize(AvailableSizes, n);
  }

  /** The same for any list of the odd sizes 3, 5, ..., 19 in increasing order. */
  lemma NearestOddSize(sizes: seq<int>, n: int)
    requires |sizes| == 9 && forall j :: 0 <= j < |sizes| ==> sizes[j] == 3 + 2 * j
    ensures sizes[NearestIndex(sizes, n)] == ClosestOdd(n)
  {
    var i := NearestIndex(sizes, n);
    var c := ClosestOdd(n);
    var k := ClosestOddPosition(n);
    assert sizes[k] == c;
    ClosestOddIsNearest(n, sizes[i]);
    var di, dk := Dist(sizes[i], n), Dist(sizes[k], n);
    assert di <= dk;
    assert k < i ==> dk > di;
  }

  /** The position of the closed form in the run 3, 5, ..., 19. */
  lemma ClosestOddPosition(n: int) returns (k: nat)
    ensures k < 9 && ClosestOdd(n) == 3 + 2 * k
  {
    k := (ClosestOdd(n) - 3) / 2;
  }

  /** No odd size in 3..19 is nearer than the closed form, and an equally near one is larger. */
  lemma ClosestOddIsNearest(n: int, x: int)
    requires 3 <= x <= 19 && x % 2 == 1
    ensures Dist(ClosestOdd(n), n) <= Dist(x, n)
    ensures x != ClosestOdd(n) && Dist(x, n) == Dist(ClosestOdd(n), n) ==> x > ClosestOdd(n)
  {
  }

  /** The recommendation is the closed form applied to the raw recommendation. */
  lemma RecommendationClosedForm(cmPerPixel: real)
    requires cmPerPixel > 0.0
    ensures RecommendPatchSize(cmPerPixel) == ClosestOdd(RawRecommendation(cmPerPixel))
  {
    NearestSizeClosedForm(RawRecommendation(cmPerPixel));
  }

  /** At 0.1 cm per pixel a 3 mm pill spans 3 pixels; 3 * 1.8 truncates to 5, an available size. */
  lemma DefaultResolutionExample()
    ensures RecommendPatchSize(0.1) == 5
  {
    assert PixelsForMm(TargetNopSizeMm, 0.1) == 3.0;
    assert RawRecommendation(0.1) == 5;
    RecommendationClosedForm(0.1);
  }
}
