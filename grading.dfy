/**
 * The threshold policy of the patch-PCA ("DPCA") severity classifier and the
 * grade tables that go with it. Grades follow the ordinal 1 (severe pilling)
 * to 5 (no pilling) scale of ISO 12945-2; only the labels of that scale are
 * used, not its test procedure.
 *
 * The classifier sees only the Euclidean norm and the standard deviation of
 * the descriptor; computing those is floating-point work outside the model.
 */
module Grading {

  datatype Classification = Classification(grade: int, confidence: real)

  /** Row `band` (1..4) of the classifier's table: norm and std both above its cut points. */
  predicate BandMatches(band: int, norm: real, std: real)
  {
    match band
    case 1 => norm > 15.0 && std > 2.0
    case 2 => norm > 10.0 && std > 1.5
    case 3 => norm > 7.0 && std > 1.0
    case 4 => norm > 5.0 && std > 0.5
    case _ => false
  }

  /** The fixed confidence the classifier reports with each grade. */
  function GradeConfidence(grade: int): real
  {
    match grade
    case 1 => 0.85
    case 2 => 0.80
    case 3 => 0.75
    case 4 => 0.70
    case _ => 0.90
  }

  /**
   * `classify_pilling_grade`: the bands are tried from the most severe down,
   * the first that matches decides; no match means grade 5.
   */
  function ClassifyPillingGrade(norm: real, std: real): (c: Classification)
    ensures 1 <= c.grade <= 5
    ensures c.confidence == GradeConfidence(c.grade)
    ensures c.grade < 5 ==> BandMatches(c.grade, norm, std)
    ensures forall b :: 1 <= b < c.grade ==> !BandMatches(b, norm, std)
  {
    if norm > 15.0 && std > 2.0 then Classification(1, 0.85)
    else if norm > 10.0 && std > 1.5 then Classification(2, 0.80)
    else if norm > 7.0 && std > 1.0 then Classification(3, 0.75)
    else if norm > 5.0 && std > 0.5 then Classification(4, 0.70)
    else Classification(5, 0.90)
  }

  /** Each band is upward closed: larger norm and std still match it. */
  lemma BandMonotone(band: int, norm: real, std: real, norm': real, std': real)
    requires norm <= norm' && std <= std'
    requires BandMatches(band, norm, std)
    ensures BandMatches(band, norm', std')
  {
  }

  /**
   * Grade monotonicity: raising the norm, the standard deviation or both never
   * raises the grade number, i.e. never reports less severe pilling.
   */
  lemma GradeMonotone(norm: real, std: real, norm': real, std': real)
    requires norm <= norm' && std <= std'
    ensures ClassifyPillingGrade(norm', std').grade <= ClassifyPillingGrade(norm, std).grade
  {
    var g := ClassifyPillingGrade(norm, std).grade;
    if g < 5 {
      BandMonotone(g, norm, std, norm', std');
    }
  }

  /** A descriptor with norm 20 and std 3 is graded 1 with confidence 0.85. */
  lemma SevereExample()
    ensures ClassifyPillingGrade(20.0, 3.0) == Classification(1, 0.85)
  {
  }

  /** `get_grade_description`: the Swedish label of each grade, "Okänd grad" otherwise. */
  function GradeDescription(grade: int): (d: string)
    ensures 1 <= grade <= 5 <==> d != "Okänd grad"
  {
    match grade
    case 1 => "Mycket allvarliga noppor"
    case 2 => "Allvarliga noppor"
    case 3 => "Medel noppor"
    case 4 => "Lätta noppor"
    case 5 => "Inga noppor"
    case _ => "Okänd grad"
  }

  /** Different grades on the scale have different descriptions. */
  lemma DescriptionsDistinct(g: int, g': int)
    requires 1 <= g <= 5 && 1 <= g' <= 5 && g != g'
    ensures GradeDescription(g) != GradeDescription(g')
  {
  }

  /**
   * The `grade_thresholds` table of `create_grade_based_mask`: the fraction of
   * the feature map that lies below the mask threshold; 0.90 for an unknown grade.
   */
  function MaskPercentileFraction(grade: int): (f: real)
    ensures 0.85 <= f <= 0.98
    ensures !(1 <= grade <= 5) ==> f == 0.90
  {
    match grade
    case 1 => 0.85
    case 2 => 0.88
    case 3 => 0.90
    case 4 => 0.93
    case 5 => 0.98
    case _ => 0.90
  }

  /** The percentile handed to `np.percentile`: the fraction times 100. */
  function ThresholdPercentile(grade: int): (p: real)
    ensures 85.0 <= p <= 98.0
  {
    MaskPercentileFraction(grade) * 100.0
  }

  /**
   * Milder grades threshold at strictly higher percentiles, so they keep a
   * smaller share of the feature map.
   */
  lemma PercentileIncreasing(g: int, g': int)
    requires 1 <= g < g' <= 5
    ensures ThresholdPercentile(g) < ThresholdPercentile(g')
  {
  }

  /** Every grade the classifier can return has a known description and percentile. */
  lemma ClassifiedGradeKnown(norm: real, std: real)
    ensures GradeDescription(ClassifyPillingGrade(norm, std).grade) != "Okänd grad"
    ensures ThresholdPercentile(ClassifyPillingGrade(norm, std).grade) ==
      [85.0, 88.0, 90.0, 93.0, 98.0][ClassifyPillingGrade(norm, std).grade - 1]
  {
  }
}
