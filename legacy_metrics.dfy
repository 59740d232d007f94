/** The legacy app's metrics screen: the date-window filter over the records, the sorted list of
    biomarker names in the window, and the records handed to the chart. */
module LegacyMetrics {
  import opened Js
  import opened Strings
  import opened Seqs
  import opened Time
  import opened LegacyRecords

  /** The instant a preset's window starts at, seen at `now`; `None` for `all` and any other
      value, which keep every record. `addMonths` and `addYears` are the `Date` setters' calendar
      arithmetic on local time, left abstract; a day is a fixed length. */
  function WindowStart(range: string, now: int, tzOffsetMs: int,
                       addMonths: (int, int) -> int, addYears: (int, int) -> int): (r: Option<int>)
    ensures range == "today" ==> r == Some(StartOfDay(now, tzOffsetMs))
    ensures range == "week" ==> r == Some(now - 7 * DAY_MS)
    ensures range == "3months" ==> r == Some(addMonths(now, -3))
    ensures range == "6months" ==> r == Some(addMonths(now, -6))
    ensures range == "year" ==> r == Some(addYears(now, -1))
    ensures r.None? <==> range !in {"today", "week", "3months", "6months", "year"}
  {
    if range == "today" then Some(StartOfDay(now, tzOffsetMs))
    else if range == "week" then Some(SubDays(now, 7))
    else if range == "3months" then Some(addMonths(now, -3))
    else if range == "6months" then Some(addMonths(now, -6))
    else if range == "year" then Some(addYears(now, -1))
    else None
  }

  /** The records dated at or after `start`; `parseDate` is `new Date(...)` in epoch ms. */
  function Since(records: seq<LegacyRecord>, parseDate: string -> int, start: int): seq<LegacyRecord> {
    Filter(records, (r: LegacyRecord) => parseDate(r.date) >= start)
  }

  /** The window keeps record order and holds exactly the records dated at or after its
      start. */
  lemma SinceExactly(records: seq<LegacyRecord>, parseDate: string -> int, start: int)
    ensures Subseq(Since(records, parseDate, start), records)
    ensures forall x :: x in Since(records, parseDate, start) <==> x in records && parseDate(x.date) >= start
  {
    FilterIsSubseq(records, (r: LegacyRecord) => parseDate(r.date) >= start);
  }

  /** `getFilteredRecords`: moves a copy of the clock back according to the preset and keeps the
      records dated at or after it; `all` and unknown presets return the list itself. */
  method GetFilteredRecords(records: seq<LegacyRecord>, range: string, now: int, tzOffsetMs: int,
                            addMonths: (int, int) -> int, addYears: (int, int) -> int,
                            parseDate: string -> int)
    returns (result: seq<LegacyRecord>)
    ensures WindowStart(range, now, tzOffsetMs, addMonths, addYears).None? ==> result == records
    ensures WindowStart(range, now, tzOffsetMs, addMonths, addYears).Some? ==>
              result == Since(records, parseDate, WindowStart(range, now, tzOffsetMs, addMonths, addYears).value)
  {
    var clock := now;
    var startDate := 0;
    if range == "today" {
      clock := StartOfDay(clock, tzOffsetMs);
      startDate := clock;
    } else if range == "week" {
      clock := clock - 7 * DAY_MS;
      startDate := clock;
    } else if range == "3months" {
      clock := addMonths(clock, -3);
      startDate := clock;
    } else if range == "6months" {
      clock := addMonths(clock, -6);
      startDate := clock;
    } else if range == "year" {
      clock := addYears(clock, -1);
      startDate := clock;
    } else {
      return records;
    }
    result := Filter(records, (r: LegacyRecord) => parseDate(r.date) >= startDate);
  }

  /** The first preset, `all`, shows every record. */
  method InitialRangeShowsAll(records: seq<LegacyRecord>, now: int, tzOffsetMs: int,
                              addMonths: (int, int) -> int, addYears: (int, int) -> int,
                              parseDate: string -> int)
    returns (result: seq<LegacyRecord>)
    ensures result == records
  {
    result := GetFilteredRecords(records, "all", now, tzOffsetMs, addMonths, addYears, parseDate);
  }

  /** The today window starts at local midnight; the week window starts exactly seven days
      before now, at the same time of day, not at a midnight. */
  lemma TodayAndWeekStarts(now: int, tzOffsetMs: int, addMonths: (int, int) -> int, addYears: (int, int) -> int)
    ensures var t := WindowStart("today", now, tzOffsetMs, addMonths, addYears).value;
            t <= now < t + DAY_MS && (t + tzOffsetMs) % DAY_MS == 0
    ensures now - WindowStart("week", now, tzOffsetMs, addMonths, addYears).value == 7 * DAY_MS
  {
  }

  /** The week window holds the today window: every record shown for today is shown for the
      week. */
  lemma {:induction false} TodayWithinWeek(records: seq<LegacyRecord>, parseDate: string -> int, now: int, tzOffsetMs: int,
                        addMonths: (int, int) -> int, addYears: (int, int) -> int)
    ensures var today := WindowStart("today", now, tzOffsetMs, addMonths, addYears).value;
            var week := WindowStart("week", now, tzOffsetMs, addMonths, addYears).value;
            Subseq(Since(records, parseDate, today), Since(records, parseDate, week))
  {
    var today := WindowStart("today", now, tzOffsetMs, addMonths, addYears).value;
    var week := WindowStart("week", now, tzOffsetMs, addMonths, addYears).value;
    assert week <= today;
    SinceMonotone(records, parseDate, week, today);
  }

  /** A later start keeps a subsequence of what an earlier start keeps. */
  lemma {:induction false} SinceMonotone(records: seq<LegacyRecord>, parseDate: string -> int, early: int, late: int)
    requires early <= late
    ensures Subseq(Since(records, parseDate, late), Since(records, parseDate, early))
  {
    if records != [] {
      SinceMonotone(records[1..], parseDate, early, late);
      var a := Since(records[1..], parseDate, late);
      var b := Since(records[1..], parseDate, early);
      if parseDate(records[0].date) >= late {
        assert Since(records, parseDate, late) == [records[0]] + a;
        assert Since(records, parseDate, early) == [records[0]] + b;
        assert ([records[0]] + a)[1..] == a && ([records[0]] + b)[1..] == b;
      } else if parseDate(records[0].date) >= early {
        assert Since(records, parseDate, late) == a;
        assert Since(records, parseDate, early) == [records[0]] + b;
        SubseqSkip(a, records[0], b);
      } else {
        assert Since(records, parseDate, late) == a;
        assert Since(records, parseDate, early) == b;
      }
    }
  }

  /** Every record's biomarker name, in order. */
  function Names(records: seq<LegacyRecord>): (r: seq<string>)
    ensures |r| == |records| && forall k :: 0 <= k < |records| ==> r[k] == records[k].biomarkerName
  {
    Map(records, (r: LegacyRecord) => r.biomarkerName)
  }

  /** `uniqueBiomarkers`. */
  function UniqueBiomarkers(filtered: seq<LegacyRecord>): (r: seq<string>)
    ensures |r| <= |filtered|
  {
    SortedSet(Names(filtered))
  }

  /** Some record carries this biomarker name. */
  ghost predicate HasName(records: seq<LegacyRecord>, name: string) {
    exists k :: 0 <= k < |records| && records[k].biomarkerName == name
  }

  /** The names are sorted, each listed once, and are exactly the names of the filtered
      records. */
  lemma UniqueBiomarkersSpec(filtered: seq<LegacyRecord>)
    ensures var r := UniqueBiomarkers(filtered);
            && SortedBy(r, CodeUnitLe)
            && NoDuplicates(r)
            && forall n :: n in r <==> HasName(filtered, n)
  {
    var names := Names(filtered);
    SortedSetSpec(names);
    forall n ensures n in names <==> HasName(filtered, n) {
      if n in names {
        var k :| 0 <= k < |names| && names[k] == n;
      }
      if HasName(filtered, n) {
        var k :| 0 <= k < |filtered| && filtered[k].biomarkerName == n;
        assert names[k] == n;
      }
    }
  }

  /** The chart section: absent when the window has no names or no biomarker chip is selected;
      otherwise the filtered records with the selected name. */
  function ChartRecords(filtered: seq<LegacyRecord>, selected: Option<string>): (r: Option<seq<LegacyRecord>>)
    ensures r.Some? <==> |UniqueBiomarkers(filtered)| > 0 && TruthyOptString(selected)
  {
    if |UniqueBiomarkers(filtered)| > 0 && TruthyOptString(selected) then
      Some(Filter(filtered, (r: LegacyRecord) => r.biomarkerName == selected.value))
    else None
  }

  /** The chart receives exactly the records of the selected biomarker, in window order. */
  lemma ChartRecordsExactly(filtered: seq<LegacyRecord>, selected: Option<string>)
    requires ChartRecords(filtered, selected).Some?
    ensures var c := ChartRecords(filtered, selected).value;
            && Subseq(c, filtered)
            && forall x :: x in c <==> x in filtered && x.biomarkerName == selected.value
  {
    FilterIsSubseq(filtered, (r: LegacyRecord) => r.biomarkerName == selected.value);
  }

  /** The chart section is shown exactly when the window holds some record and a chip is
      selected. */
  lemma ChartShownIff(filtered: seq<LegacyRecord>, selected: Option<string>)
    ensures ChartRecords(filtered, selected).Some? <==> |filtered| > 0 && TruthyOptString(selected)
  {
    UniqueBiomarkersSpec(filtered);
    if |filtered| > 0 {
      assert HasName(filtered, filtered[0].biomarkerName);
      assert filtered[0].biomarkerName in UniqueBiomarkers(filtered);
    }
  }
}
