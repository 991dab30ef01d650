/**
  The water-quality categories and the classification of an HPI value into
  them (thresholds 100 and 200, each belonging to the more severe category).
 */
module Quality {

  datatype Category = Safe | SlightlyPolluted | Hazardous

  /** Ordinal severity of a category. */
  function Severity(c: Category): nat {
    match c
    case Safe => 0
    case SlightlyPolluted => 1
    case Hazardous => 2
  }

  /** `categorizeWaterQuality`: below 100 is safe, from 100 up to (not
      including) 200 slightly polluted, from 200 on hazardous. */
  function CategorizeWaterQuality(hpi: real): (c: Category)
    ensures c == Safe <==> hpi < 100.0
    ensures c == SlightlyPolluted <==> 100.0 <= hpi < 200.0
    ensures c == Hazardous <==> 200.0 <= hpi
  {
    if hpi < 100.0 then Safe
    else if hpi < 200.0 then SlightlyPolluted
    else Hazardous
  }

  /** A larger HPI never yields a less severe category. */
  lemma CategoryMonotone(a: real, b: real)
    requires a <= b
    ensures Severity(CategorizeWaterQuality(a)) <= Severity(CategorizeWaterQuality(b))
  {
  }

  /** The boundaries 100 and 200 belong to the more severe side. */
  lemma CategoryBoundaries()
    ensures CategorizeWaterQuality(99.999) == Safe
    ensures CategorizeWaterQuality(100.0) == SlightlyPolluted
    ensures CategorizeWaterQuality(199.999) == SlightlyPolluted
    ensures CategorizeWaterQuality(200.0) == Hazardous
  {
  }
}
