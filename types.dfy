/** The shared data shapes of the new app. */
module Types {
  import opened Js

  /** One admissible unit of a biomarker (kg, lb, bpm, mmHg, ...); `labelText` is the source's `label`. */
  datatype UnitOption = UnitOption(code: string, labelText: string)

  /** A reference range; low, high and unit are each independently optional. */
  datatype ReferenceRange = ReferenceRange(
    low: Nullable<real>,
    high: Nullable<real>,
    unit: Nullable<string>,
    note: Nullable<string>)

  /** A catalog biomarker: code, name and units are always present. */
  datatype Biomarker = Biomarker(
    code: string,
    name: string,
    units: seq<UnitOption>,
    defaultUnit: Option<string>,
    referenceRange: Option<ReferenceRange>,
    aliases: Option<seq<string>>)

  /** A logged measurement: the name and the instant are always present, everything else is
      optional. */
  datatype BiomarkerEntry = BiomarkerEntry(
    id: Option<int>,
    biomarkerCode: Nullable<string>,
    biomarkerName: string,
    valueNum: Nullable<real>,
    valueText: Nullable<string>,
    unit: Nullable<string>,
    takenAt: int,
    location: Nullable<string>,
    notes: Nullable<string>)

  datatype DateRangePreset = Today | Week | Last3Months | Last6Months | LastYear | Custom {
    /** The string literal the preset is in the source's union type. */
    function Name(): (r: string)
      ensures r in PRESET_NAMES
    {
      match this
      case Today => "today"
      case Week => "week"
      case Last3Months => "last3months"
      case Last6Months => "last6months"
      case LastYear => "lastyear"
      case Custom => "custom"
    }
  }

  const PRESET_NAMES: seq<string> := ["today", "week", "last3months", "last6months", "lastyear", "custom"]

  /** Start and end instants (epoch ms) and the preset that produced them. */
  datatype DateRange = DateRange(start: int, end: int, preset: DateRangePreset)

  /** There are exactly six presets, and their names tell them apart. */
  lemma PresetNamesDistinct(p: DateRangePreset, q: DateRangePreset)
    ensures p.Name() == q.Name() <==> p == q
    ensures |PRESET_NAMES| == 6
  {
  }
}
