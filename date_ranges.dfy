/** The new app's date presets: each resolves to a window of whole local days ending today. */
module DateRanges {
  import opened Types
  import opened Time

  /** The preset a name resolves to: `custom` and any unrecognised name resolve to `Custom`. */
  function PresetOf(name: string): (p: DateRangePreset)
    ensures name in PRESET_NAMES ==> p.Name() == name
    ensures name !in PRESET_NAMES ==> p == Custom
  {
    if name == "today" then Today
    else if name == "week" then Week
    else if name == "last3months" then Last3Months
    else if name == "last6months" then Last6Months
    else if name == "lastyear" then LastYear
    else Custom
  }

  /** How many days before today each window starts: 6, 30 * 3 - 1, 30 * 6 - 1 and 365 - 1. */
  function DaysBack(p: DateRangePreset): nat {
    match p
    case Today => 0
    case Week => 6
    case Last3Months => 30 * 3 - 1
    case Last6Months => 30 * 6 - 1
    case LastYear => 365 - 1
    case Custom => 0
  }

  /** `getPresetRange(preset)` at the instant `now`: the window starts at local midnight
      `DaysBack` days ago and ends at the last millisecond of today, so it holds exactly
      `DaysBack + 1` whole local days. `custom` and unrecognised names yield today's bounds,
      tagged `custom`. */
  function GetPresetRange(preset: string, now: int, tzOffsetMs: int): (r: DateRange)
    ensures r.preset == PresetOf(preset)
    ensures r.end == EndOfDay(now, tzOffsetMs)
    ensures r.start == StartOfDay(now, tzOffsetMs) - DaysBack(r.preset) * DAY_MS
    ensures (r.start + tzOffsetMs) % DAY_MS == 0
    ensures r.end - r.start + 1 == (DaysBack(r.preset) + 1) * DAY_MS
    ensures r.start <= now <= r.end
  {
    var p := PresetOf(preset);
    var start := StartOfDay(SubDays(now, DaysBack(p)), tzOffsetMs);
    StartOfDaySubDays(now, tzOffsetMs, DaysBack(p));
    DateRange(start, EndOfDay(now, tzOffsetMs), p)
  }

  /** `toEpochMsRange(range)`: the two instants as milliseconds. */
  function ToEpochMsRange(range: DateRange): (r: (int, int))
    ensures r.0 == range.start && r.1 == range.end
  {
    (range.start, range.end)
  }

  /** A resolved window never ends before it starts. */
  lemma EpochRangeOrdered(preset: string, now: int, tzOffsetMs: int)
    ensures var ms := ToEpochMsRange(GetPresetRange(preset, now, tzOffsetMs)); ms.0 <= ms.1
  {
  }

  /** The order in which the windows grow. */
  function Rank(p: DateRangePreset): nat {
    match p
    case Today => 0
    case Custom => 0
    case Week => 1
    case Last3Months => 2
    case Last6Months => 3
    case LastYear => 4
  }

  /** The windows nest: today within week within 3 months within 6 months within a year. They
      all share the same end. */
  lemma {:induction false} WindowsNest(a: string, b: string, now: int, tzOffsetMs: int)
    requires Rank(PresetOf(a)) <= Rank(PresetOf(b))
    ensures GetPresetRange(b, now, tzOffsetMs).start <= GetPresetRange(a, now, tzOffsetMs).start
    ensures GetPresetRange(b, now, tzOffsetMs).end == GetPresetRange(a, now, tzOffsetMs).end
  {
    var pa, pb := PresetOf(a), PresetOf(b);
    assert DaysBack(pa) <= DaysBack(pb);
  }

  /** Every instant of a window lies on one of its days: in particular `now` and all of today. */
  lemma TodayInEveryWindow(preset: string, now: int, tzOffsetMs: int, t: int)
    requires StartOfDay(now, tzOffsetMs) <= t <= EndOfDay(now, tzOffsetMs)
    ensures GetPresetRange(preset, now, tzOffsetMs).start <= t <= GetPresetRange(preset, now, tzOffsetMs).end
  {
  }

  /** Custom (and unrecognised) presets give exactly today's bounds; the caller cannot pass its
      own bounds through. */
  lemma CustomIsToday(preset: string, now: int, tzOffsetMs: int)
    requires preset !in ["today", "week", "last3months", "last6months", "lastyear"]
    ensures GetPresetRange(preset, now, tzOffsetMs)
            == DateRange(StartOfDay(now, tzOffsetMs), EndOfDay(now, tzOffsetMs), Custom)
  {
  }
}
