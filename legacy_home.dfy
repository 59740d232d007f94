/** The legacy app's home screen: the record counts it shows. */
module LegacyHome {
  import opened Strings
  import opened Seqs
  import opened Time
  import opened LegacyRecords
  import opened LegacyMetrics

  /** `getTodayRecordsCount`: records whose date string starts with `today`, the UTC date
      `YYYY-MM-DD` of `new Date().toISOString()`. */
  function TodayCount(records: seq<LegacyRecord>, today: string): (n: nat)
    ensures n <= |records|
  {
    |Filter(records, (r: LegacyRecord) => StartsWith(r.date, today))|
  }

  /** The today count is zero exactly when no record's date starts with today's date. */
  lemma TodayCountZeroIff(records: seq<LegacyRecord>, today: string)
    ensures TodayCount(records, today) == 0 <==> forall k :: 0 <= k < |records| ==> !StartsWith(records[k].date, today)
  {
    var f := Filter(records, (r: LegacyRecord) => StartsWith(r.date, today));
    if exists k :: 0 <= k < |records| && StartsWith(records[k].date, today) {
      var k :| 0 <= k < |records| && StartsWith(records[k].date, today);
      assert records[k] in f;
    }
    if |f| > 0 {
      assert f[0] in records && StartsWith(f[0].date, today);
      var k :| 0 <= k < |records| && records[k] == f[0];
    }
  }

  /** `getThisWeekRecordsCount`: moves a copy of the clock seven days back and counts the
      records dated at or after it. */
  method ThisWeekCount(records: seq<LegacyRecord>, now: int, parseDate: string -> int) returns (n: nat)
    ensures n == |Since(records, parseDate, now - 7 * DAY_MS)|
    ensures n <= |records|
  {
    var weekAgo := now;
    weekAgo := weekAgo - 7 * DAY_MS;
    n := |Filter(records, (r: LegacyRecord) => parseDate(r.date) >= weekAgo)|;
  }

  /** The home screen's week count is the length of the metrics screen's week window. */
  lemma WeekCountMatchesMetrics(records: seq<LegacyRecord>, now: int, tzOffsetMs: int,
                                addMonths: (int, int) -> int, addYears: (int, int) -> int,
                                parseDate: string -> int)
    ensures Since(records, parseDate, now - 7 * DAY_MS)
            == Since(records, parseDate, WindowStart("week", now, tzOffsetMs, addMonths, addYears).value)
  {
  }

  /** `getUniqueBiomarkers`: the size of the set of names. */
  function UniqueCount(records: seq<LegacyRecord>): (n: nat)
    ensures n <= |records|
  {
    DistinctCardinality(Names(records));
    |set x | x in Names(records)|
  }

  /** The unique count is the number of chips the metrics screen lists for the same records. */
  lemma UniqueCountIsChipCount(records: seq<LegacyRecord>)
    ensures UniqueCount(records) == |UniqueBiomarkers(records)|
  {
    var names := Names(records);
    UniqueBiomarkersSpec(records);
    SortedSetSpec(names);
    NoDuplicatesCardinality(UniqueBiomarkers(records));
    assert (set x | x in UniqueBiomarkers(records)) == (set x | x in names);
  }

  /** Some records but a unique count of zero is impossible; one name for all records gives
      one. */
  lemma UniqueCountBounds(records: seq<LegacyRecord>)
    ensures |records| > 0 ==> UniqueCount(records) >= 1
    ensures (|records| > 0 && forall k :: 0 <= k < |records| ==> records[k].biomarkerName == records[0].biomarkerName)
            ==> UniqueCount(records) == 1
  {
    var names := Names(records);
    if |records| > 0 {
      var all := set x | x in names;
      assert names[0] in all;
      assert |all - {names[0]}| == |all| - 1;
      if forall k :: 0 <= k < |records| ==> records[k].biomarkerName == records[0].biomarkerName {
        forall x | x in names ensures x == names[0] {
          var i :| 0 <= i < |names| && names[i] == x;
        }
        assert (set x | x in names) == {names[0]};
      }
    }
  }
}
