/**
 Two concrete submissions: a typical patient, and the same patient with a
 cholesterol above the threshold.
 */
module Scenarios {
  import opened Patient
  import opened FeatureTransform
  import opened TransformProperties

  /** A 50-year-old man, blood pressure 120, cholesterol 200, maximum heart rate 150, every code 0. */
  const Typical: RawRecord := RawRecord(50, 1, 0, 120, 200, 0, 0, 150, 0, 1.0, 0, 0, 0)

  /** The typical patient's derived features: ratio 0.8, cholesterol not high. */
  lemma TypicalDerived(expectedCols: seq<string>, j: int)
    requires 0 <= j < |expectedCols|
    ensures expectedCols[j] == "bp_hr_ratio" ==> Transform(Typical, expectedCols)[j].1 == 0.8
    ensures expectedCols[j] == "high_chol" ==> Transform(Typical, expectedCols)[j].1 == 0.0
  {
    if expectedCols[j] == "bp_hr_ratio" {
      RatioColumn(Typical, expectedCols, j);
      FourFifths(Transform(Typical, expectedCols)[j].1);
    } else if expectedCols[j] == "high_chol" {
      HighCholColumn(Typical, expectedCols, j);
    }
  }

  /** 120 / 150 is 0.8. */
  lemma FourFifths(q: real)
    requires q == 120 as real / 150 as real
    ensures q == 0.8
  {
  }

  /**
   Raising the typical patient's cholesterol to 300 sets `high_chol` and
   leaves every entry other than `chol` and `high_chol` as it was.
   */
  lemma HighCholesterol(expectedCols: seq<string>, j: int)
    requires 0 <= j < |expectedCols|
    ensures expectedCols[j] == "high_chol" ==> Transform(Typical.(chol := 300), expectedCols)[j].1 == 1.0
    ensures expectedCols[j] != "chol" && expectedCols[j] != "high_chol" ==>
      Transform(Typical.(chol := 300), expectedCols)[j] == Transform(Typical, expectedCols)[j]
  {
    if expectedCols[j] == "high_chol" {
      HighCholColumn(Typical.(chol := 300), expectedCols, j);
    } else if expectedCols[j] != "chol" {
      CholAffectsOnlyCholColumns(Typical, 300, expectedCols, j);
    }
  }
}
