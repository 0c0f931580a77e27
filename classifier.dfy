/** The vital-sign classifier: decides from a test type and its numeric result
    whether the patient is critical. */
module Classifier {
  import opened Records

  const BLOOD_PRESSURE := "Blood Pressure"
  const HEART_RATE := "Heart Rate"
  const RESPIRATORY_RATE := "Respiratory Rate"

  /** The closed interval of normal results of a vital sign. */
  datatype NormalRange = NormalRange(low: int, high: int)

  /** The threshold table, one entry per recognized test type; any other type
      has no entry. */
  function RuleFor(testType: string): Option<NormalRange> {
    if testType == BLOOD_PRESSURE then Some(NormalRange(90, 140))
    else if testType == HEART_RATE then Some(NormalRange(60, 100))
    else if testType == RESPIRATORY_RATE then Some(NormalRange(12, 20))
    else None
  }

  predicate IsRecognized(testType: string) {
    RuleFor(testType).Some?
  }

  predicate OutsideRange(result: real, range: NormalRange) {
    result < range.low as real || range.high as real < result
  }

  /** The handler's if/else-if chain. A recognized type is critical exactly when
      the result lies strictly outside its normal range; any other type keeps
      the patient's current flag. */
  function Classify(testType: string, result: real, current: bool): (critical: bool)
    ensures IsRecognized(testType) ==>
              (critical <==> OutsideRange(result, RuleFor(testType).value))
    ensures !IsRecognized(testType) ==> critical == current
  {
    if testType == BLOOD_PRESSURE then result > 140.0 || result < 90.0
    else if testType == HEART_RATE then result > 100.0 || result < 60.0
    else if testType == RESPIRATORY_RATE then result > 20.0 || result < 12.0
    else current
  }

  /** The comparisons are strict: each threshold itself is normal, and a
      result just beyond it is critical, whatever the current flag. */
  lemma Boundaries(current: bool)
    ensures !Classify(BLOOD_PRESSURE, 140.0, current) && Classify(BLOOD_PRESSURE, 140.0001, current)
    ensures !Classify(BLOOD_PRESSURE, 90.0, current) && Classify(BLOOD_PRESSURE, 89.9999, current)
    ensures !Classify(HEART_RATE, 100.0, current) && Classify(HEART_RATE, 100.0001, current)
    ensures !Classify(HEART_RATE, 60.0, current) && Classify(HEART_RATE, 59.9999, current)
    ensures !Classify(RESPIRATORY_RATE, 20.0, current) && Classify(RESPIRATORY_RATE, 20.0001, current)
    ensures !Classify(RESPIRATORY_RATE, 12.0, current) && Classify(RESPIRATORY_RATE, 11.9999, current)
  {
  }

  /** For a recognized type the verdict depends on the result only. */
  lemma RecognizedIgnoresCurrent(testType: string, result: real)
    requires IsRecognized(testType)
    ensures Classify(testType, result, true) == Classify(testType, result, false)
  {
  }
}
