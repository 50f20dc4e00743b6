# Noppanalys core in Dafny

Noppanalys is a desktop tool that finds pills ("noppor") in photographs of
textiles. Several detectors (LBP with local variance, Fourier high-pass,
morphological top-hat, wavelets, an ensemble of those, and a patch-PCA
"DPCA" pipeline) each turn the image into a binary pill mask and a feature
map. Region statistics then summarise the mask. The DPCA path grades the
pilling on the 1 (severe) to 5 (none) scale of ISO 12945-2.

This project models the integer and decision logic between the image-processing
library calls and proves its properties:

- `Masks` (`masks.dfy`): masks, component label arrays and feature maps, flattened row-major; set-pixel counts and region areas.
- `Voting` (`voting.dfy`): the majority vote and feature averaging of the combined detector.
- `Grading` (`grading.dfy`): the threshold severity classifier, the grade descriptions and the grade-to-percentile table.
- `GradeMask` (`grade_mask.dfy`): the DPCA post-filter, i.e. threshold, union with strong local maxima, and the minimum-area component filter.
- `Stats` (`stats.dfy`): the region statistics (pixel counts, percentage, pill count, min/mean/max area, density, feature mean and maximum).
- `FeatureGrid` (`feature_grid.dfy`): which cells of the DPCA feature map the stride loops write, and with which anchor's value.
- `Patch` (`patch.dfy`): the patch-size recommendation and the pixel/millimetre conversion.
- `App` (`app.dfy`): the `NoppAnalysApp` state. This covers the method registry with the experimental switch, zoom-region selection and reset, weight normalisation and the method comparison.

Library computations that the logic only consumes enter as inputs:

- the component labelling (`skimage.measure.label`);
- the percentile threshold;
- the grey dilation;
- the morphological opening and closing;
- the per-anchor DPCA value;
- the detectors' own masks and feature maps.

## Model

| member | source | states |
|---|---|---|
| Masks.CountSet | src/noppanalys_gui.py:1247 | the set-pixel count is at most the pixel count, is 0 exactly when no pixel is set and equals the pixel count exactly when all are |
| Masks.Area | src/noppanalys_gui.py:1257 | a component's area is at most the image size and is positive exactly when some pixel carries its label |
| Masks.RegionAreas | src/noppanalys_gui.py:1251-1257 | one area per region, each positive and at most the image size; there is a region exactly when some pixel has a positive label |
| Masks.RegionAreasCoverMask | src/noppanalys_gui.py:1251-1257 | the areas of all regions of a labelled mask add up to its set-pixel count |
| Voting.VoteThreshold | src/noppanalys_gui.py:1009 | the threshold `n // 2 + 1` is the least count that is more than half of n |
| Voting.Votes | src/noppanalys_gui.py:1010 | a pixel's vote count never exceeds the number of masks |
| Voting.CombineByVote | src/noppanalys_gui.py:1011 | the combined mask has the image size and keeps a pixel iff more than half of the masks set it |
| Voting.CombineIsStrictMajority | src/noppanalys_gui.py:1009-1011 | a pixel is in the combined mask iff more than half of the masks set it |
| Voting.UnanimousPixelKept | src/noppanalys_gui.py:1009-1011 | a pixel set by every mask of a non-empty ensemble is kept |
| Voting.DisjointVotesAtMostOne | src/noppanalys_gui.py:1010 | with pairwise-disjoint masks each pixel has at most one vote, and one vote means some mask sets it |
| Voting.DisjointMasksCombineEmpty | src/noppanalys_gui.py:1009-1011 | two or more pairwise-disjoint masks combine to the empty mask, with no set pixel |
| Voting.AverageWithinBounds | src/noppanalys_gui.py:1014 | the averaged feature map lies, pixel by pixel, within the bounds of the input maps |
| Voting.AverageMaps | src/noppanalys_gui.py:1014 | each pixel of the averaged map times the number of maps is the sum of the maps at that pixel |
| Voting.AverageOfFour | src/noppanalys_gui.py:1014 | the average of four maps, times 4, is their pixel-wise sum |
| Voting.CombineOfFour | src/noppanalys_gui.py:1009-1011 | four masks combine to exactly the pixels that at least three of them set |
| Voting.DetectCombined | src/noppanalys_gui.py:985-1030 | a result exists iff PyWavelets is present and an image is loaded; the ensemble then has 4 members and threshold 3, a pixel is kept iff at least 3 of the 4 masks set it, the combined feature map times 4 is the sum of the four maps, and the vote record holds each mask's set-pixel count |
| Grading.ClassifyPillingGrade | src/noppanalys_gui.py:1119-1147 | the grade is in 1..5 with its fixed confidence; a grade below 5 is a band that matches and every more severe band fails |
| Grading.GradeMonotone | src/noppanalys_gui.py:1131-1145 | raising norm and/or std never raises the grade number |
| Grading.SevereExample | src/noppanalys_gui.py:1131-1133 | norm 20 with std 3 is graded (1, 0.85) |
| Grading.GradeDescription | src/noppanalys_gui.py:1232-1241 | the description differs from "Okänd grad" exactly for grades 1..5 |
| Grading.DescriptionsDistinct | src/noppanalys_gui.py:1234-1240 | the five grades have five different descriptions |
| Grading.MaskPercentileFraction | src/noppanalys_gui.py:1186-1194 | the fraction lies in 0.85..0.98 and is 0.90 for any grade outside 1..5 |
| Grading.ThresholdPercentile | src/noppanalys_gui.py:1194 | the percentile lies in 85..98 |
| Grading.PercentileIncreasing | src/noppanalys_gui.py:1186-1194 | over grades 1..5 the percentile is strictly increasing |
| Grading.ClassifiedGradeKnown | src/noppanalys_gui.py:1186-1194 | every classified grade has a known description and its percentile is 85, 88, 90, 93 or 98 by grade |
| GradeMask.ThresholdMask | src/noppanalys_gui.py:1198 | the threshold mask has one entry per feature-map cell |
| GradeMask.LocalMaxMask | src/noppanalys_gui.py:1204 | the local-maxima mask has one entry per feature-map cell |
| GradeMask.EnhanceWithMaxima | src/noppanalys_gui.py:1207-1208 | the enhanced mask holds exactly the pixels of the threshold mask together with the local maxima |
| GradeMask.Union | src/noppanalys_gui.py:1207-1208 | the union keeps the image size |
| GradeMask.MaximaAlreadyThresholded | src/noppanalys_gui.py:1198-1204 | with a non-negative threshold every strong local maximum is already above the threshold |
| GradeMask.ThresholdWithinEnhanced | src/noppanalys_gui.py:1198-1208 | every thresholded pixel is in the enhanced mask |
| GradeMask.FilterSmallRegions | src/noppanalys_gui.py:1220-1230 | a pixel is in the result iff it lies in a component of area at least 20 |
| GradeMask.CreateGradeBasedMask | src/noppanalys_gui.py:1182-1230 | the final mask is exactly the pixels of components of area at least 20 of the cleaned mask, and is a subset of it |
| GradeMask.FilterWithinCleaned | src/noppanalys_gui.py:1220-1230 | the area filter only removes pixels |
| GradeMask.FilterKeepsWholeComponents | src/noppanalys_gui.py:1226-1228 | a component is kept or dropped whole, and a kept one has area at least 20 |
| GradeMask.SurvivorsCountedInFinal | src/noppanalys_gui.py:1226-1228 | a surviving component keeps all its pixels, at least 20 of them |
| Stats.SeqMax | src/noppanalys_gui.py:1260 | the maximum bounds every area and is attained |
| Stats.SeqMin | src/noppanalys_gui.py:1261 | the minimum is below every area and is attained |
| Stats.Percentage | src/noppanalys_gui.py:1248 | the percentage times the pixel count is the set-pixel count times 100 |
| Stats.Density | src/noppanalys_gui.py:1259 | the density times the pixel count is the region count times 10000 |
| Stats.CalculatePillingStats | src/noppanalys_gui.py:1243-1295 | an error iff the mask is empty; otherwise total and set-pixel counts and one pill per region |
| Stats.PercentageConsistent | src/noppanalys_gui.py:1246-1248 | percentage times total equals set pixels times 100; it is in 0..100, 0 iff no pixel is set, 100 iff all are |
| Stats.NoPillsAllZero | src/noppanalys_gui.py:1255-1274 | no regions iff no set pixel, and then average/min/max area and density are 0 |
| Stats.PillAreaSummary | src/noppanalys_gui.py:1255-1261 | with regions: the min and max area are the smallest and largest region area (each attained), min <= mean <= max, mean times count is the set-pixel count, and density times total is count times 10000 |
| Stats.IntensitySummary | src/noppanalys_gui.py:1277-1280 | the maximum intensity bounds the feature map and is attained; the mean intensity times the pixel count is the map's sum, and it is at most the maximum |
| FeatureGrid.FillBlock | src/noppanalys_gui.py:1176 | exactly the cells of the block get the value; every other cell keeps its old value |
| FeatureGrid.WriteBlock | src/noppanalys_gui.py:1173-1178 | the cells of the anchor's stride block (cut at the edge) get the value; all other cells are unchanged |
| FeatureGrid.WriteAnchor | src/noppanalys_gui.py:1159-1178 | one inner-loop step keeps the invariant that all earlier anchors' blocks hold their values and the rest are 0 |
| FeatureGrid.NextRowBlock | src/noppanalys_gui.py:1158-1159 | after the last column anchor the whole row block is done |
| FeatureGrid.AllRowBlocks | src/noppanalys_gui.py:1158 | after the last row anchor every cell holds its final value |
| FeatureGrid.CreateFeatureMap | src/noppanalys_gui.py:1149-1180 | the map is h x w; a cell covered by a visited anchor's block holds that anchor's value, any other cell 0 |
| Patch.NearestIndex | src/noppanalys_gui.py:2031-2032 | the chosen size is at least as close as every size, and every earlier size is strictly farther |
| Patch.PatchSizeMm | src/noppanalys_gui.py:2001 | at a positive resolution the millimetre size divided by the millimetres per pixel is the patch size again, and it is non-negative for a non-negative patch |
| Patch.PatchSizeRoundTrip | src/noppanalys_gui.py:2001 | converting a patch size to millimetres and back gives it again |
| Patch.RawRecommendation | src/noppanalys_gui.py:2023-2027 | the raw recommendation is the truncation of 1.8 times the pixel span of 3 mm |
| Patch.RecommendPatchSize | src/noppanalys_gui.py:2019-2035 | the recommendation is one of the offered sizes 3..19 |
| Patch.NearestSizeClosedForm | src/noppanalys_gui.py:2030-2032 | the nearest size is 3 up to 3, 19 from 19, the value itself when odd, and the smaller neighbour when even |
| Patch.RecommendationClosedForm | src/noppanalys_gui.py:2019-2032 | the recommendation is the closed form of the raw value |
| Patch.DefaultResolutionExample | src/noppanalys_gui.py:2019-2032 | at 0.1 cm per pixel the recommendation is 5 |
| Patch.NopSizeAtPatch | src/noppanalys_gui.py:2039 | the reported pill diameter spans, in pixels, the patch size divided by 1.8 |
| App.BasicMethods | src/noppanalys_gui.py:80-84 | the basic registry holds "LBP + Varians", mapped to the LBP detector |
| App.ExperimentalMethods | src/noppanalys_gui.py:86-98 | wavelet and combined are registered iff PyWavelets is present, DPCA iff scikit-learn is; none clashes with a basic name |
| App.AvailableMethods | src/noppanalys_gui.py:2270-2274 | the offered names are the basic ones plus the experimental ones when the mode is on, with experimental entries winning |
| App.BasicAlwaysAvailable | src/noppanalys_gui.py:2272-2274 | every basic method stays offered with its own detector in either mode |
| App.ExperimentalOnlyInMode | src/noppanalys_gui.py:2272-2274 | an experimental method is offered iff the mode is on |
| App.ModeOffIsBasic | src/noppanalys_gui.py:2272 | with the mode off exactly the basic methods are offered |
| App.KeptMethod | src/noppanalys_gui.py:2277-2279 | a still-offered selection is kept; the result is the old selection or "LBP + Varians", and it is offered whenever "LBP + Varians" is |
| App.SelectedDetector | src/noppanalys_gui.py:1297-1305 | an offered name runs its registered detector; whatever runs is a registered detector or the LBP fallback |
| App.CollectResults | src/noppanalys_gui.py:1348-1359 | the results are exactly the methods whose call returned, each with its returned triple |
| App.ResultsWithinMethods | src/noppanalys_gui.py:1348-1359 | a name is recorded iff it was run and its call did not raise |
| App.FailureIsolated | src/noppanalys_gui.py:1350-1359 | a method that raises is absent from the results and every other entry is unaffected |
| App.Crop | src/noppanalys_gui.py:493 | the crop has the region's width and height and pixel (i, j) is pixel (y1 + i, x1 + j) of the image |
| App.Truncate | src/noppanalys_gui.py:474-475 | `int` of a coordinate truncates toward zero |
| App.DraggedRegion | src/noppanalys_gui.py:474-485 | the ordered, clamped rectangle: its columns (rows) are exactly those of the dragged span that lie on the image |
| App.SelectRoi | src/noppanalys_gui.py:474-494 | refused iff the clamped dragged rectangle has a side under 50; an accepted region is that rectangle, inside the image, with both sides at least 50 |
| App.SelectRoiSymmetric | src/noppanalys_gui.py:478-479 | swapping the press and release corners selects the same region |
| App.SelectRoiExact | src/noppanalys_gui.py:474-494 | a whole-pixel drag between any two opposite corners on the image, at least 50 apart on both axes, selects exactly its rectangle |
| App.NarrowDragRefused | src/noppanalys_gui.py:478-487 | a drag less than 50 whole pixels wide or high is refused, whatever the clamping |
| App.ClampedDragRefusedExamples | src/noppanalys_gui.py:483-487 | on a 100 x 100 image a drag with only 20 columns on the image, or only 10 rows high, is refused, and an 80-column one is accepted clamped |
| App.Normalized | src/noppanalys_gui.py:560-566 | with a positive total the weights sum to 1 and each times the old total is the old weight; otherwise they are unchanged |
| App.DefaultWeights | src/noppanalys_gui.py:606-624 | the slider defaults 0.2, 0.3 and 0.5, which already sum to 1 and are unchanged by normalizing |
| App.NormalizedInUnitRange | src/noppanalys_gui.py:560-566 | slider weights in 0..1 stay in 0..1 after normalizing |
| App.NormalizeIdempotent | src/noppanalys_gui.py:560-566 | normalizing twice equals normalizing once |
| App.NoppAnalysApp.constructor | src/noppanalys_gui.py:52-108 | no image or zoom, mode off, experimental registry by installed libraries, only the basic methods offered, "LBP + Varians" selected, no results, weights at the slider defaults |
| App.NoppAnalysApp.UpdateAvailableMethods | src/noppanalys_gui.py:2270-2279 | the registry is rebuilt from the mode, the selection is kept or reset, and the selection is always offered afterwards |
| App.NoppAnalysApp.SetExperimentalMode | src/noppanalys_gui.py:2281-2285 | the mode is set and the registry rebuilt; the selection is always offered afterwards |
| App.NoppAnalysApp.CurrentDetector | src/noppanalys_gui.py:1297-1305 | with a consistent registry the detector run is the one registered for the selection |
| App.NoppAnalysApp.OnRectangleSelect | src/noppanalys_gui.py:468-494 | without an image or with a refused region nothing changes; otherwise the region is stored, the working image is its crop and the view is zoomed; a consistent zoom state stays consistent, and an accepted region makes it consistent from any state |
| App.NoppAnalysApp.ResetZoom | src/noppanalys_gui.py:513-520 | with an image the working image is the full image again, the region is cleared and the view unzoomed |
| App.NoppAnalysApp.NormalizeWeights | src/noppanalys_gui.py:560-566 | the weights become their normalized values and sum to 1 when the total was positive |
| App.NoppAnalysApp.CompareMethodsAnalysis | src/noppanalys_gui.py:1342-1361 | without an image nothing changes; otherwise the results are those of the offered methods that returned, keyed within the offered names |

## Left out

- The Tkinter and matplotlib user interface: widgets, menus, dialogs, status texts, drawing, the rectangle selector and the progress animation.
- File and network I/O: loading, saving, export and the web link. Because `load_image` is not modelled, no model operation installs an image. `OnRectangleSelect`, `ResetZoom` and `CompareMethodsAnalysis` require nothing of the image state, so they also cover the states `load_image` leaves behind when it returns early with the working image already replaced.
- Threads: the background analysis, its busy flag, `root.after` hand-offs and the `start_background_analysis` call at the end of `normalize_weights`.
- The detectors' image processing (LBP, local variance, FFT, wavelets, OpenCV morphology, top-hat, adaptive threshold, distance transform, watershed). Their masks and feature maps are inputs.
- `np.percentile`, `cv2.dilate`, the opening/closing and `skimage.measure.label` in the DPCA post-filter. They are inputs; the labelling is constrained only by `LabelsOf`, positive exactly on set pixels.
- The DPCA descriptor itself (PCA, Sobel, Gabor, skewness, kurtosis) and the scikit-learn classifier, which is trained on random synthetic data.
- The per-anchor DPCA value (patch variance plus mean gradient magnitude). It is the function parameter `value`.
- Floating-point behaviour: every quantity is an exact `real`.
- Stats.CalculatePillingStats: does not compute the area standard deviation, the circularity or the feature-map standard deviation (square roots, pi and perimeters of regionprops).
- Stats.CalculatePillingStats: an empty mask returns an error. In the source it gives NaN and then raises at `np.max`.
- Voting.DetectCombined: the per-method `stats` and the combined `calculate_pilling_stats` call are not part of its result; the statistics are modelled once in `Stats`.
- The dialog of `recommend_patch_size` is not modelled; the diameter it reports is `Patch.NopSizeAtPatch`.
- The console `print` of a failing method's name and error in `compare_methods_analysis` is not modelled: the method is only left out of the results.
- App.NoppAnalysApp.OnRectangleSelect: a click outside the axes (`xdata` of `None`) is not modelled. Coordinates are real numbers.
- After selecting or resetting a region the source recomputes the grey image and the average colour. That is image processing and is not modelled.
- App.NoppAnalysApp.SetExperimentalMode: the recovery path of `toggle_experimental_mode`, which resets the mode when rebuilding the menus raises, is not modelled since the menus are not.
