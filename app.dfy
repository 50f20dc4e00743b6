/**
 * The state of the `NoppAnalysApp` window that the analysis logic depends
 * on: the loaded image and its zoom region, the registry of detection methods
 * with the experimental switch, the selected method, the results of the
 * last method comparison and the three colour-channel weights.
 *
 * Widgets, threads and the detectors' image processing are not modelled: a
 * detector is named by a `Detector` value and running one on the current
 * image is the function parameter `run`.
 */
module App {
  import opened Masks
  import opened Results

  /** The bound `detect_nops_*` methods the registry maps names to. */
  datatype Detector = Lbp | Fourier | Morphological | Wavelet | Combined | Dpca

  /** A detector's `(nop_mask, feature_map, stats)` triple; `(None, None, {})` is `NoDetection`. */
  datatype DetectionResult =
    | Detection(mask: Mask, features: FeatureMap, stats: map<string, real>)
    | NoDetection

  /** A call of a detector: it returns its triple or raises. */
  datatype DetectorOutcome = Returned(result: DetectionResult) | Raised(message: string)

  /** The name the method falls back to. */
  const DefaultMethod: string := "LBP + Varians"

  /** `basic_methods`: always offered. */
  function BasicMethods(): (m: map<string, Detector>)
    ensures DefaultMethod in m && m[DefaultMethod] == Lbp
  {
    map["LBP + Varians" := Lbp, "Fourier + Gauss" := Fourier, "Morfologisk" := Morphological]
  }

  /**
   * `experimental_methods`: the wavelet and combined detectors when PyWavelets
   * is installed, the DPCA detector when scikit-learn is.
   */
  function ExperimentalMethods(pywtAvailable: bool, sklearnAvailable: bool): (m: map<string, Detector>)
    ensures "Wavelet Transform" in m <==> pywtAvailable
    ensures "Kombinerad" in m <==> pywtAvailable
    ensures "DPCA + ML" in m <==> sklearnAvailable
    ensures |m.Keys| == (if pywtAvailable then 2 else 0) + (if sklearnAvailable then 1 else 0)
    ensures m.Keys !! BasicMethods().Keys
  {
    var wavelet: map<string, Detector> :=
      if pywtAvailable then map["Wavelet Transform" := Wavelet, "Kombinerad" := Combined] else map[];
    if sklearnAvailable then wavelet["DPCA + ML" := Dpca] else wavelet
  }

  /**
   * `available_methods = basic_methods.copy()`, updated with the experimental
   * methods when the mode is on; as with `dict.update`, an experimental entry
   * wins over a basic one of the same name.
   */
  function AvailableMethods(basic: map<string, Detector>, experimental: map<string, Detector>, mode: bool)
    : (m: map<string, Detector>)
    ensures m.Keys == basic.Keys + (if mode then experimental.Keys else {})
    ensures forall k :: k in m ==> m[k] == (if mode && k in experimental then experimental[k] else basic[k])
  {
    if mode then basic + experimental else basic
  }

  /** Every basic method stays available, whatever the mode. */
  lemma BasicAlwaysAvailable(basic: map<string, Detector>, experimental: map<string, Detector>, mode: bool, k: string)
    requires k in basic && k !in experimental
    ensures k in AvailableMethods(basic, experimental, mode)
    ensures AvailableMethods(basic, experimental, mode)[k] == basic[k]
  {
  }

  /** An experimental method is available exactly when the mode is on. */
  lemma ExperimentalOnlyInMode(experimental: map<string, Detector>, mode: bool, k: string)
    requires k in experimental
    ensures k in AvailableMethods(BasicMethods(), experimental, mode) <==> mode || k in BasicMethods()
  {
  }

  /** Turning the mode off again gives back exactly the basic methods. */
  lemma ModeOffIsBasic(basic: map<string, Detector>, experimental: map<string, Detector>)
    ensures AvailableMethods(basic, experimental, false) == basic
  {
  }

  /** The method kept after an update: the old one if still offered, else the default. */
  function KeptMethod(current: string, available: map<string, Detector>): (k: string)
    ensures current in available ==> k == current
    ensures k == current || k == DefaultMethod
    ensures DefaultMethod in available ==> k in available
  {
    if current in available then current else DefaultMethod
  }

  /**
   * `detect_nops`: the detector registered under the selected name, or the
   * LBP detector when the name is not offered.
   */
  function SelectedDetector(available: map<string, Detector>, name: string): (d: Detector)
    ensures name in available ==> d == available[name]
    ensures d == Lbp || d in available.Values
  {
    if name in available then available[name] else Lbp
  }

  /**
   * `methods_results`: each method whose call returned, with the triple it
   * returned. A method whose call raised is left out.
   */
  function SuccessfulResults(methods: map<string, Detector>, run: Detector -> DetectorOutcome)
    : map<string, DetectionResult>
  {
    map k | k in methods && run(methods[k]).Returned? :: run(methods[k]).result
  }

  /**
   * The comparison loop of `compare_methods_analysis`: every method is called,
   * a raising one is skipped with `continue`, the rest are recorded.
   */
  method CollectResults(methods: map<string, Detector>, run: Detector -> DetectorOutcome)
    returns (results: map<string, DetectionResult>)
    ensures results == SuccessfulResults(methods, run)
  {
    results := map[];
    var remaining := methods.Keys;
    while remaining != {}
      invariant remaining <= methods.Keys
      invariant forall k :: k in results <==> k in methods && k !in remaining && run(methods[k]).Returned?
      invariant forall k :: k in results ==> results[k] == run(methods[k]).result
      decreases remaining
    {
      var k :| k in remaining;
      match run(methods[k]) {
        case Returned(r) =>
          results := results[k := r];
        case Raised(_) =>
      }
      remaining := remaining - {k};
    }
  }

  /** The recorded methods are among the methods that were run, and only those that returned. */
  lemma ResultsWithinMethods(methods: map<string, Detector>, run: Detector -> DetectorOutcome, k: string)
    ensures k in SuccessfulResults(methods, run) <==> k in methods && run(methods[k]).Returned?
  {
  }

  /**
   * A failure does not abort the others: making one method raise removes that
   * method from the results and changes nothing else.
   */
  lemma FailureIsolated(methods: map<string, Detector>, run: Detector -> DetectorOutcome,
                        run': Detector -> DetectorOutcome, failing: string)
    requires failing in methods && run'(methods[failing]).Raised?
    requires forall k :: k in methods && k != failing ==> run'(methods[k]) == run(methods[k])
    ensures SuccessfulResults(methods, run') == SuccessfulResults(methods, run) - {failing}
  {
  }

  /** The image as rows of BGR pixels, `width` pixels each. */
  datatype Pixel = Pixel(b: int, g: int, r: int)
  datatype Image = Image(width: nat, rows: seq<seq<Pixel>>)

  predicate WellFormed(img: Image)
  {
    forall i :: 0 <= i < |img.rows| ==> |img.rows[i]| == img.width
  }

  /** `roi_coords = (x1, y1, x2, y2)`: columns x1..x2 and rows y1..y2, upper bounds excluded. */
  datatype Roi = Roi(x1: int, y1: int, x2: int, y2: int)

  /** The region lies inside a w x h image. */
  predicate Inside(roi: Roi, w: int, h: int)
  {
    0 <= roi.x1 <= roi.x2 <= w && 0 <= roi.y1 <= roi.y2 <= h
  }

  /** `image[y1:y2, x1:x2]`. */
  function Crop(img: Image, roi: Roi): (c: Image)
    requires WellFormed(img) && Inside(roi, img.width, |img.rows|)
    ensures WellFormed(c)
    ensures c.width == roi.x2 - roi.x1 && |c.rows| == roi.y2 - roi.y1
    ensures forall i, j :: 0 <= i < |c.rows| && 0 <= j < c.width ==>
      c.rows[i][j] == img.rows[roi.y1 + i][roi.x1 + j]
  {
    Image(roi.x2 - roi.x1, seq(roi.y2 - roi.y1, i requires 0 <= i < roi.y2 - roi.y1 => img.rows[roi.y1 + i][roi.x1..roi.x2]))
  }

  /** Python's `int` on a float: truncation toward zero. */
  function Truncate(x: real): (n: int)
    ensures x >= 0.0 ==> n >= 0 && n as real <= x < n as real + 1.0
    ensures x < 0.0 ==> n <= 0 && n as real - 1.0 < x <= n as real
  {
    if x >= 0.0 then x.Floor else -((-x).Floor)
  }

  function Min(a: int, b: int): int { if a <= b then a else b }
  function Max(a: int, b: int): int { if a <= b then b else a }

  /** `min_size`: a region narrower or lower than this is refused. */
  const MinRoiSide: int := 50

  /** Index `c` lies in the half-open span `lo..hi`. */
  predicate InSpan(lo: int, hi: int, c: int)
  {
    lo <= c < hi
  }

  /**
   * The dragged rectangle of `on_rectangle_select` before the size test: the
   * corners truncated to pixels, ordered, and clamped to the w x h image. Its
   * columns and rows are those of the dragged span that lie on the image.
   */
  function DraggedRegion(w: nat, h: nat, pressX: real, pressY: real, releaseX: real, releaseY: real)
    : (r: Roi)
    ensures 0 <= r.x1 && r.x2 <= w && 0 <= r.y1 && r.y2 <= h
    ensures forall c :: InSpan(r.x1, r.x2, c) <==>
      InSpan(0, w, c) && InSpan(Min(Truncate(pressX), Truncate(releaseX)), Max(Truncate(pressX), Truncate(releaseX)), c)
    ensures forall c :: InSpan(r.y1, r.y2, c) <==>
      InSpan(0, h, c) && InSpan(Min(Truncate(pressY), Truncate(releaseY)), Max(Truncate(pressY), Truncate(releaseY)), c)
  {
    var px, rx := Truncate(pressX), Truncate(releaseX);
    var py, ry := Truncate(pressY), Truncate(releaseY);
    Roi(Max(0, Min(px, rx)), Max(0, Min(py, ry)), Min(w, Max(px, rx)), Min(h, Max(py, ry)))
  }

  /**
   * `on_rectangle_select`'s region: the dragged rectangle, refused when after
   * clamping a side is under 50 pixels.
   */
  function SelectRoi(w: nat, h: nat, pressX: real, pressY: real, releaseX: real, releaseY: real)
    : (r: Option<Roi>)
    ensures var d := DraggedRegion(w, h, pressX, pressY, releaseX, releaseY);
      r.None? <==> d.x2 - d.x1 < MinRoiSide || d.y2 - d.y1 < MinRoiSide
    ensures r.Some? ==> r.value == DraggedRegion(w, h, pressX, pressY, releaseX, releaseY)
    ensures r.Some? ==> Inside(r.value, w, h)
    ensures r.Some? ==> r.value.x2 - r.value.x1 >= MinRoiSide && r.value.y2 - r.value.y1 >= MinRoiSide
  {
    var d := DraggedRegion(w, h, pressX, pressY, releaseX, releaseY);
    if d.x2 - d.x1 < MinRoiSide || d.y2 - d.y1 < MinRoiSide then None else Some(d)
  }

  /** Which corner is pressed first does not matter. */
  lemma SelectRoiSymmetric(w: nat, h: nat, pressX: real, pressY: real, releaseX: real, releaseY: real)
    ensures SelectRoi(w, h, pressX, pressY, releaseX, releaseY) == SelectRoi(w, h, releaseX, releaseY, pressX, pressY)
  {
  }

  /**
   * A whole-pixel drag between any two opposite corners on the image, at least
   * 50 pixels apart on both axes, selects exactly its rectangle.
   */
  lemma SelectRoiExact(w: nat, h: nat, x0: nat, y0: nat, x1: nat, y1: nat)
    requires x0 <= w && x1 <= w && y0 <= h && y1 <= h
    requires Max(x0, x1) - Min(x0, x1) >= MinRoiSide && Max(y0, y1) - Min(y0, y1) >= MinRoiSide
    ensures SelectRoi(w, h, x0 as real, y0 as real, x1 as real, y1 as real) ==
      Some(Roi(Min(x0, x1), Min(y0, y1), Max(x0, x1), Max(y0, y1)))
  {
    assert Truncate(x0 as real) == x0 && Truncate(x1 as real) == x1;
    assert Truncate(y0 as real) == y0 && Truncate(y1 as real) == y1;
  }

  /** Clamping only shrinks: a drag under 50 whole pixels wide or high is always refused. */
  lemma NarrowDragRefused(w: nat, h: nat, pressX: real, pressY: real, releaseX: real, releaseY: real)
    requires Max(Truncate(pressX), Truncate(releaseX)) - Min(Truncate(pressX), Truncate(releaseX)) < MinRoiSide ||
             Max(Truncate(pressY), Truncate(releaseY)) - Min(Truncate(pressY), Truncate(releaseY)) < MinRoiSide
    ensures SelectRoi(w, h, pressX, pressY, releaseX, releaseY).None?
  {
  }

  /**
   * On a 100 x 100 image: a drag from (80, 0) to (200, 100) keeps only 20
   * columns on the image and is refused; so is a drag 10 rows high.
   */
  lemma ClampedDragRefusedExamples()
    ensures SelectRoi(100, 100, 80.0, 0.0, 200.0, 100.0).None?
    ensures SelectRoi(100, 100, 0.0, 0.0, 100.0, 10.0).None?
    ensures SelectRoi(100, 100, 20.0, 0.0, 200.0, 100.0) == Some(Roi(20, 0, 100, 100))
  {
    assert Truncate(80.0) == 80 && Truncate(200.0) == 200 && Truncate(100.0) == 100;
    assert Truncate(0.0) == 0 && Truncate(10.0) == 10 && Truncate(20.0) == 20;
  }

  /** The channel weights of the LBP detector. */
  datatype Weights = Weights(red: real, green: real, blue: real)

  function Total(w: Weights): real
  {
    w.red + w.green + w.blue
  }

  /**
   * `normalize_weights` on values: divide each weight by the total when it is
   * positive; then the weights sum to 1 and each is its share of the old total.
   */
  function Normalized(w: Weights): (n: Weights)
    ensures Total(w) <= 0.0 ==> n == w
    ensures Total(w) > 0.0 ==> Total(n) == 1.0
    ensures Total(w) > 0.0 ==>
      n.red * Total(w) == w.red && n.green * Total(w) == w.green && n.blue * Total(w) == w.blue
  {
    var t := Total(w);
    if t > 0.0 then
      SharesSumToOne(w.red, w.green, w.blue, t);
      Weights(w.red / t, w.green / t, w.blue / t)
    else w
  }

  lemma SharesSumToOne(a: real, b: real, c: real, t: real)
    requires t > 0.0 && t == a + b + c
    ensures a / t + b / t + c / t == 1.0
  {
    assert a / t + b / t == (a + b) / t;
    assert (a + b) / t + c / t == (a + b + c) / t;
  }

  /** The slider defaults: red 0.2, green 0.3, blue 0.5, already normalized. */
  function DefaultWeights(): (w: Weights)
    ensures w.red == 0.2 && w.green == 0.3 && w.blue == 0.5
    ensures Total(w) == 1.0 && Normalized(w) == w
  {
    Weights(0.2, 0.3, 0.5)
  }

  /** Weights from the 0..1 sliders stay in 0..1 after normalizing. */
  lemma NormalizedInUnitRange(w: Weights)
    requires 0.0 <= w.red <= 1.0 && 0.0 <= w.green <= 1.0 && 0.0 <= w.blue <= 1.0
    ensures var n := Normalized(w);
      0.0 <= n.red <= 1.0 && 0.0 <= n.green <= 1.0 && 0.0 <= n.blue <= 1.0
  {
    var t := Total(w);
    if t > 0.0 {
      assert w.red <= t && w.green <= t && w.blue <= t;
      DivAtMostOne(w.red, t);
      DivAtMostOne(w.green, t);
      DivAtMostOne(w.blue, t);
    }
  }

  lemma DivAtMostOne(a: real, t: real)
    requires 0.0 <= a <= t && t > 0.0
    ensures 0.0 <= a / t <= 1.0
  {
  }

  /** Normalizing twice is normalizing once. */
  lemma NormalizeIdempotent(w: Weights)
    ensures Normalized(Normalized(w)) == Normalized(w)
  {
  }

  class NoppAnalysApp {
    var fullOriginalImage: Option<Image>
    var originalImage: Option<Image>
    var roiCoords: Option<Roi>
    var isZoomed: bool
    var experimentalMode: bool
    var basicMethods: map<string, Detector>
    var experimentalMethods: map<string, Detector>
    var availableMethods: map<string, Detector>
    var analysisMethod: string
    var analysisResults: map<string, DetectionResult>
    var red: real
    var green: real
    var blue: real

    /** The registry is built from the basic and experimental maps and the selection is offered. */
    predicate Valid()
      reads this
    {
      basicMethods == BasicMethods() &&
      availableMethods == AvailableMethods(basicMethods, experimentalMethods, experimentalMode) &&
      analysisMethod in availableMethods
    }

    /** The zoom state: a stored region is inside the full image and the working image is its crop. */
    predicate ZoomConsistent()
      reads this
    {
      (isZoomed <==> roiCoords.Some?) &&
      (roiCoords.Some? ==>
        fullOriginalImage.Some? && WellFormed(fullOriginalImage.value) &&
        Inside(roiCoords.value, fullOriginalImage.value.width, |fullOriginalImage.value.rows|) &&
        originalImage == Some(Crop(fullOriginalImage.value, roiCoords.value)))
    }

    /** `__init__`: no image, no zoom, experimental mode off, the default method, weights 0.2/0.3/0.5. */
    constructor (pywtAvailable: bool, sklearnAvailable: bool)
      ensures Valid() && ZoomConsistent()
      ensures fullOriginalImage.None? && originalImage.None? && roiCoords.None? && !isZoomed
      ensures !experimentalMode
      ensures experimentalMethods == ExperimentalMethods(pywtAvailable, sklearnAvailable)
      ensures availableMethods == BasicMethods() && analysisMethod == DefaultMethod
      ensures analysisResults == map[]
      ensures Weights(red, green, blue) == DefaultWeights()
    {
      fullOriginalImage := None;
      originalImage := None;
      roiCoords := None;
      isZoomed := false;
      experimentalMode := false;
      basicMethods := BasicMethods();
      experimentalMethods := ExperimentalMethods(pywtAvailable, sklearnAvailable);
      analysisMethod := DefaultMethod;
      availableMethods := map[];
      analysisResults := map[];
      red, green, blue := DefaultWeights().red, DefaultWeights().green, DefaultWeights().blue;
      new;
      UpdateAvailableMethods();
    }

    /**
     * `update_available_methods`: rebuild the offered methods from the mode and
     * fall back to the default method when the selected one is gone.
     */
    method UpdateAvailableMethods()
      requires basicMethods == BasicMethods()
      modifies this
      ensures Valid()
      ensures availableMethods == AvailableMethods(basicMethods, experimentalMethods, experimentalMode)
      ensures analysisMethod == KeptMethod(old(analysisMethod), availableMethods)
      ensures basicMethods == old(basicMethods) && experimentalMethods == old(experimentalMethods)
      ensures experimentalMode == old(experimentalMode)
      ensures fullOriginalImage == old(fullOriginalImage) && originalImage == old(originalImage)
      ensures roiCoords == old(roiCoords) && isZoomed == old(isZoomed)
      ensures analysisResults == old(analysisResults)
      ensures red == old(red) && green == old(green) && blue == old(blue)
    {
      availableMethods := basicMethods;
      if experimentalMode {
        availableMethods := availableMethods + experimentalMethods;
      }
      if analysisMethod !in availableMethods {
        analysisMethod := DefaultMethod;
      }
    }

    /** The experimental check box: set the mode, then `toggle_experimental_mode` updates the registry. */
    method SetExperimentalMode(on: bool)
      requires Valid()
      modifies this
      ensures Valid() && experimentalMode == on
      ensures availableMethods == AvailableMethods(BasicMethods(), experimentalMethods, on)
      ensures analysisMethod == KeptMethod(old(analysisMethod), availableMethods)
      ensures basicMethods == old(basicMethods) && experimentalMethods == old(experimentalMethods)
      ensures fullOriginalImage == old(fullOriginalImage) && originalImage == old(originalImage)
      ensures roiCoords == old(roiCoords) && isZoomed == old(isZoomed)
      ensures analysisResults == old(analysisResults)
      ensures red == old(red) && green == old(green) && blue == old(blue)
    {
      experimentalMode := on;
      UpdateAvailableMethods();
    }

    /** `detect_nops`: under a valid registry the selected detector is the one registered for the selection. */
    function CurrentDetector(): (d: Detector)
      reads this
      ensures Valid() ==> d == availableMethods[analysisMethod]
    {
      SelectedDetector(availableMethods, analysisMethod)
    }

    /**
     * `on_rectangle_select`: with an image loaded and a large enough region,
     * store the region, crop the full image to it and mark the view as zoomed;
     * otherwise change nothing.
     */
    method OnRectangleSelect(pressX: real, pressY: real, releaseX: real, releaseY: real)
      requires fullOriginalImage.Some? ==> WellFormed(fullOriginalImage.value)
      modifies this
      ensures old(ZoomConsistent()) ==> ZoomConsistent()
      ensures fullOriginalImage == old(fullOriginalImage)
      ensures old(fullOriginalImage).None? ==> unchanged(this)
      ensures old(fullOriginalImage).Some? ==>
        var img := old(fullOriginalImage).value;
        var r := SelectRoi(img.width, |img.rows|, pressX, pressY, releaseX, releaseY);
        (r.None? ==> unchanged(this)) &&
        (r.Some? ==> roiCoords == r && isZoomed && originalImage == Some(Crop(img, r.value)) && ZoomConsistent())
      ensures experimentalMode == old(experimentalMode) && availableMethods == old(availableMethods)
      ensures basicMethods == old(basicMethods) && experimentalMethods == old(experimentalMethods)
      ensures analysisMethod == old(analysisMethod) && analysisResults == old(analysisResults)
      ensures red == old(red) && green == old(green) && blue == old(blue)
    {
      if fullOriginalImage.None? {
        return;
      }
      var img := fullOriginalImage.value;
      var r := SelectRoi(img.width, |img.rows|, pressX, pressY, releaseX, releaseY);
      if r.None? {
        return;
      }
      roiCoords := r;
      originalImage := Some(Crop(img, r.value));
      isZoomed := true;
    }

    /** `reset_zoom`: with an image loaded, go back to the full image and forget the region. */
    method ResetZoom()
      modifies this
      ensures ZoomConsistent() || old(fullOriginalImage).None?
      ensures fullOriginalImage == old(fullOriginalImage)
      ensures old(fullOriginalImage).None? ==> unchanged(this)
      ensures old(fullOriginalImage).Some? ==>
        originalImage == old(fullOriginalImage) && !isZoomed && roiCoords.None?
      ensures experimentalMode == old(experimentalMode) && availableMethods == old(availableMethods)
      ensures basicMethods == old(basicMethods) && experimentalMethods == old(experimentalMethods)
      ensures analysisMethod == old(analysisMethod) && analysisResults == old(analysisResults)
      ensures red == old(red) && green == old(green) && blue == old(blue)
    {
      if fullOriginalImage.None? {
        return;
      }
      originalImage := fullOriginalImage;
      isZoomed := false;
      roiCoords := None;
    }

    /** `normalize_weights`: the three weights are replaced by their normalized values. */
    method NormalizeWeights()
      modifies this
      ensures Weights(red, green, blue) == Normalized(Weights(old(red), old(green), old(blue)))
      ensures Total(Weights(old(red), old(green), old(blue))) > 0.0 ==> red + green + blue == 1.0
      ensures fullOriginalImage == old(fullOriginalImage) && originalImage == old(originalImage)
      ensures roiCoords == old(roiCoords) && isZoomed == old(isZoomed)
      ensures experimentalMode == old(experimentalMode) && availableMethods == old(availableMethods)
      ensures basicMethods == old(basicMethods) && experimentalMethods == old(experimentalMethods)
      ensures analysisMethod == old(analysisMethod) && analysisResults == old(analysisResults)
    {
      var total := red + green + blue;
      if total > 0.0 {
        red, green, blue := red / total, green / total, blue / total;
      }
    }

    /**
     * `compare_methods_analysis`: without an image nothing happens; otherwise
     * every offered method is run on the current image and the results of those
     * that returned replace the previous comparison.
     */
    method CompareMethodsAnalysis(run: Detector -> DetectorOutcome)
      modifies this
      ensures originalImage.None? ==> analysisResults == old(analysisResults)
      ensures originalImage.Some? ==> analysisResults == SuccessfulResults(availableMethods, run)
      ensures analysisResults.Keys <= availableMethods.Keys || originalImage.None?
      ensures fullOriginalImage == old(fullOriginalImage) && originalImage == old(originalImage)
      ensures roiCoords == old(roiCoords) && isZoomed == old(isZoomed)
      ensures experimentalMode == old(experimentalMode) && availableMethods == old(availableMethods)
      ensures basicMethods == old(basicMethods) && experimentalMethods == old(experimentalMethods)
      ensures analysisMethod == old(analysisMethod)
      ensures red == old(red) && green == old(green) && blue == old(blue)
    {
      if originalImage.None? {
        return;
      }
      var results := CollectResults(availableMethods, run);
      analysisResults := results;
    }
  }
}
