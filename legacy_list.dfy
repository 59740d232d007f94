/** The legacy app's record list: the range status of each record and the order the list is
    shown in. */
module LegacyList {
  import opened Js
  import opened Seqs
  import opened LegacyCatalog
  import opened LegacyRecords

  /** Whether a record lies in its normal range: unknown without a range or when a bound is
      `null`; otherwise both bounds are inclusive. */
  function IsInNormalRange(r: LegacyRecord): (res: Option<bool>)
    ensures res.None? <==> r.normalRange.None? || r.normalRange.value.min.None? || r.normalRange.value.max.None?
    ensures res == Some(true) <==> r.normalRange.Some? && r.normalRange.value.min.Some? && r.normalRange.value.max.Some?
                                   && r.normalRange.value.min.value <= r.value <= r.normalRange.value.max.value
  {
    if r.normalRange.None? || r.normalRange.value.min.None? || r.normalRange.value.max.None? then None
    else Some(r.value >= r.normalRange.value.min.value && r.value <= r.normalRange.value.max.value)
  }

  /** The comparator `new Date(b.date) - new Date(a.date) <= 0`: `a` is not older than `b`.
      `parseDate` is `new Date(...)` as epoch milliseconds. */
  function NewerFirst(parseDate: string -> int): (le: (LegacyRecord, LegacyRecord) -> bool)
    ensures forall a, b :: le(a, b) == (parseDate(b.date) <= parseDate(a.date))
    ensures TotalPreorder(le)
  {
    (a: LegacyRecord, b: LegacyRecord) => parseDate(b.date) <= parseDate(a.date)
  }

  /** `[...records].sort(...)`: a sorted copy; `records` itself is a value and stays as it is. */
  function SortedRecords(records: seq<LegacyRecord>, parseDate: string -> int): (r: seq<LegacyRecord>)
    ensures |r| == |records|
  {
    SortBy(records, NewerFirst(parseDate))
  }

  /** The shown list is a permutation of the records, most recent date first. */
  lemma SortedRecordsNewestFirst(records: seq<LegacyRecord>, parseDate: string -> int)
    ensures var r := SortedRecords(records, parseDate);
            && multiset(r) == multiset(records)
            && forall i, j :: 0 <= i < j < |r| ==> parseDate(r[i].date) >= parseDate(r[j].date)
  {
    var r := SortedRecords(records, parseDate);
    SortByIsSorted(records, NewerFirst(parseDate));
    forall i, j | 0 <= i < j < |r| ensures parseDate(r[i].date) >= parseDate(r[j].date) {
      assert NewerFirst(parseDate)(r[i], r[j]);
    }
  }
}
