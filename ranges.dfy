/** The new app's range evaluator: is a measurement inside its biomarker's reference range? */
module Ranges {
  import opened Js
  import opened Types
  import opened Dataset

  /** The value respects every bound the range has; a missing bound constrains nothing, and a
      present bound admits the value equal to it. */
  predicate Within(rr: ReferenceRange, v: real) {
    && (rr.low.Value? ==> rr.low.value <= v)
    && (rr.high.Value? ==> v <= rr.high.value)
  }

  /** Both units are given (non-empty) and they are different. An empty or missing unit on
      either side does not stop the comparison. */
  predicate UnitsConflict(rangeUnit: Nullable<string>, unit: Nullable<string>) {
    TruthyNullableString(rangeUnit) && TruthyNullableString(unit) && rangeUnit.value != unit.value
  }

  /** The situation in which the evaluator gives a verdict: a non-empty code, a value, a catalog
      entry with a reference range, and no unit conflict. */
  predicate Decidable(index: map<string, Biomarker>, code: Nullable<string>, value: Nullable<real>,
                      unit: Nullable<string>)
  {
    && TruthyNullableString(code)
    && value.Value?
    && code.value in index
    && index[code.value].referenceRange.Some?
    && !UnitsConflict(index[code.value].referenceRange.value.unit, unit)
  }

  /** `isInRange` against a given index: `None` is the source's `null` (unknown). */
  function IsInRangeIn(index: map<string, Biomarker>, code: Nullable<string>, value: Nullable<real>,
                       unit: Nullable<string>): (r: Option<bool>)
    ensures r.None? <==> !Decidable(index, code, value, unit)
    ensures r == Some(true) <==>
              Decidable(index, code, value, unit) && Within(index[code.value].referenceRange.value, value.value)
    ensures r == Some(false) <==>
              Decidable(index, code, value, unit) && !Within(index[code.value].referenceRange.value, value.value)
  {
    if !TruthyNullableString(code) || value.IsNullish() then None
    else if code.value !in index || index[code.value].referenceRange.None? then None
    else
      var rr := index[code.value].referenceRange.value;
      var v := value.value;
      if TruthyNullableString(rr.unit) && TruthyNullableString(unit) && rr.unit.value != unit.value then None
      else if rr.low.Value? && v < rr.low.value then Some(false)
      else if rr.high.Value? && v > rr.high.value then Some(false)
      else Some(true)
  }

  /** `isInRange(biomarkerCode, value, unit)`, over the catalog's index. */
  function IsInRange(code: Nullable<string>, value: Nullable<real>, unit: Nullable<string>): (r: Option<bool>)
    ensures r.None? <==> !Decidable(BIOMARKER_INDEX, code, value, unit)
    ensures r == Some(true) <==>
              Decidable(BIOMARKER_INDEX, code, value, unit)
              && Within(BIOMARKER_INDEX[code.value].referenceRange.value, value.value)
    ensures r == Some(false) <==>
              Decidable(BIOMARKER_INDEX, code, value, unit)
              && !Within(BIOMARKER_INDEX[code.value].referenceRange.value, value.value)
  {
    IsInRangeIn(BIOMARKER_INDEX, code, value, unit)
  }

  /** A value on either bound is in range (the bounds are inclusive). */
  lemma BoundsInclusive(index: map<string, Biomarker>, code: Nullable<string>, value: Nullable<real>,
                        unit: Nullable<string>)
    requires Decidable(index, code, value, unit)
    requires var rr := index[code.value].referenceRange.value;
             rr.low.Value? && rr.high.Value? && rr.low.value <= rr.high.value
             && (value.value == rr.low.value || value.value == rr.high.value)
    ensures IsInRangeIn(index, code, value, unit) == Some(true)
  {
  }

  /** With a missing or empty unit on either side, the evaluator still compares. */
  lemma MissingUnitStillCompares(index: map<string, Biomarker>, code: Nullable<string>, value: Nullable<real>,
                                 unit: Nullable<string>)
    requires TruthyNullableString(code) && value.Value?
    requires code.value in index && index[code.value].referenceRange.Some?
    requires !TruthyNullableString(unit) || !TruthyNullableString(index[code.value].referenceRange.value.unit)
    ensures IsInRangeIn(index, code, value, unit).Some?
  {
  }

  /** Blood glucose is 70 to 99 mg/dL: 85 mg/dL is in range, 120 mg/dL is out of range, and
      120 mmol/L is unknown because the units differ. */
  lemma GlucoseScenario()
    ensures IsInRange(Value("glucose"), Value(85.0), Value("mg/dL")) == Some(true)
    ensures IsInRange(Value("glucose"), Value(120.0), Value("mg/dL")) == Some(false)
    ensures IsInRange(Value("glucose"), Value(120.0), Value("mmol/L")) == None
  {
    IndexGlucose();
  }
}
