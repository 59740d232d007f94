/** The legacy app's line chart of one biomarker: its records in date order, one label and one
    value each, the labels thinned to at most six, the normal-range caption and the trend. */
module LegacyChart {
  import opened Js
  import opened Seqs
  import opened LegacyCatalog
  import opened LegacyRecords

  /** The comparator `new Date(a.date) - new Date(b.date) <= 0`: `a` is not newer than `b`. */
  function OlderFirst(parseDate: string -> int): (le: (LegacyRecord, LegacyRecord) -> bool)
    ensures forall a, b :: le(a, b) == (parseDate(a.date) <= parseDate(b.date))
    ensures TotalPreorder(le)
  {
    (a: LegacyRecord, b: LegacyRecord) => parseDate(a.date) <= parseDate(b.date)
  }

  /** `sortedRecords`: a copy of the records sorted by date, oldest first. */
  function SortedRecords(records: seq<LegacyRecord>, parseDate: string -> int): (r: seq<LegacyRecord>)
    ensures |r| == |records|
  {
    SortBy(records, OlderFirst(parseDate))
  }

  /** The sorted copy is a permutation of the records in ascending date order. */
  lemma SortedRecordsAscending(records: seq<LegacyRecord>, parseDate: string -> int)
    ensures var r := SortedRecords(records, parseDate);
            && multiset(r) == multiset(records)
            && forall i, j :: 0 <= i < j < |r| ==> parseDate(r[i].date) <= parseDate(r[j].date)
  {
    var r := SortedRecords(records, parseDate);
    SortByIsSorted(records, OlderFirst(parseDate));
    forall i, j | 0 <= i < j < |r| ensures parseDate(r[i].date) <= parseDate(r[j].date) {
      assert OlderFirst(parseDate)(r[i], r[j]);
    }
  }

  /** The labels `month/day` of each record; `labelOf` is that formatting of a date string. */
  function Labels(sorted: seq<LegacyRecord>, labelOf: string -> string): (r: seq<string>)
    ensures |r| == |sorted| && forall i :: 0 <= i < |sorted| ==> r[i] == labelOf(sorted[i].date)
  {
    Map(sorted, (x: LegacyRecord) => labelOf(x.date))
  }

  /** The plotted values, one per record. */
  function Values(sorted: seq<LegacyRecord>): (r: seq<real>)
    ensures |r| == |sorted| && forall i :: 0 <= i < |sorted| ==> r[i] == sorted[i].value
  {
    Map(sorted, (x: LegacyRecord) => x.value)
  }

  /** The most labels the x axis shows. */
  const MAX_LABELS := 6

  /** `labels.filter((_, i) => i % step === 0)`, from index `i` on. */
  function EveryStep(labels: seq<string>, step: nat, i: nat): (r: seq<string>)
    requires step > 0
    decreases |labels| - i
  {
    if i >= |labels| then []
    else (if i % step == 0 then [labels[i]] else []) + EveryStep(labels, step, i + 1)
  }

  /** The x-axis labels: more than six are thinned to every `ceil(n / 6)`-th. */
  function ThinLabels(labels: seq<string>): (r: seq<string>)
    ensures |labels| <= MAX_LABELS ==> r == labels
  {
    if |labels| > MAX_LABELS then EveryStep(labels, (|labels| + MAX_LABELS - 1) / MAX_LABELS, 0)
    else labels
  }

  lemma MulAtLeast(d: nat, step: nat)
    requires d >= 1
    ensures d * step >= step
  {
    assert d * step == step + (d - 1) * step;
  }

  /** `m * step + k` leaves `k` over when `k < step`. */
  lemma ModOffset(m: nat, step: nat, k: nat)
    requires 0 <= k < step
    ensures (m * step + k) % step == k
  {
    var x := m * step + k;
    var q, r := x / step, x % step;
    assert x == q * step + r;
    assert (q - m) * step == k - r;
    if q > m {
      MulAtLeast(q - m, step);
    } else if q < m {
      MulAtLeast(m - q, step);
    }
  }

  /** Between two multiples of the step nothing is kept. */
  lemma {:induction false} SkipGap(labels: seq<string>, step: nat, m: nat, k: nat)
    requires step > 0 && 0 < k <= step
    ensures EveryStep(labels, step, m * step + 1) == EveryStep(labels, step, m * step + k)
    decreases k
  {
    if k > 1 {
      SkipGap(labels, step, m, k - 1);
      ModOffset(m, step, k - 1);
    }
  }

  /** From the multiple `m * step` on, one label is kept per multiple below the length. */
  lemma {:induction false} EveryStepFrom(labels: seq<string>, step: nat, m: nat)
    requires step > 0
    ensures m * step < |labels| ==>
              EveryStep(labels, step, m * step) == [labels[m * step]] + EveryStep(labels, step, (m + 1) * step)
    ensures m * step >= |labels| ==> EveryStep(labels, step, m * step) == []
  {
    if m * step < |labels| {
      ModOffset(m, step, 0);
      SkipGap(labels, step, m, step);
      assert m * step + step == (m + 1) * step;
    }
  }

  /** The `j`-th kept label is the label at `(m + j) * step`, and a multiple below the length is
      always kept. */
  lemma {:induction false} EveryStepShape(labels: seq<string>, step: nat, m: nat, j: nat)
    requires step > 0
    ensures j < |EveryStep(labels, step, m * step)| <==> (m + j) * step < |labels|
    ensures j < |EveryStep(labels, step, m * step)| ==> EveryStep(labels, step, m * step)[j] == labels[(m + j) * step]
    decreases |labels| - m * step
  {
    EveryStepFrom(labels, step, m);
    if m * step < |labels| {
      assert (m + 1) * step == m * step + step;
      if j > 0 {
        EveryStepShape(labels, step, m + 1, j - 1);
        assert m + 1 + (j - 1) == m + j;
      } else {
        assert (m + j) * step == m * step;
      }
    } else {
      assert (m + j) * step >= m * step by {
        assert (m + j) * step == m * step + j * step;
      }
    }
  }

  /** With more than six labels the axis keeps exactly those at multiples of `ceil(n / 6)`: the
      first label always, at most six in all. */
  lemma ThinnedLabels(labels: seq<string>)
    requires |labels| > MAX_LABELS
    ensures var r := ThinLabels(labels);
            var step := (|labels| + MAX_LABELS - 1) / MAX_LABELS;
            && 0 < |r| <= MAX_LABELS
            && r[0] == labels[0]
            && forall j :: 0 <= j < |r| ==> j * step < |labels| && r[j] == labels[j * step]
  {
    var n := |labels|;
    var step := (n + MAX_LABELS - 1) / MAX_LABELS;
    var r := ThinLabels(labels);
    assert r == EveryStep(labels, step, 0 * step);
    forall j | 0 <= j < |r| ensures j * step < n && r[j] == labels[j * step] {
      EveryStepShape(labels, step, 0, j);
      assert (0 + j) * step == j * step;
    }
    EveryStepShape(labels, step, 0, 0);
    EveryStepShape(labels, step, 0, MAX_LABELS);
    assert MAX_LABELS * step >= n;
  }

  /** What the chart card shows. */
  datatype ChartView =
    | NoData
    | Chart(labels: seq<string>, values: seq<real>, range: Option<NormalRange>, latest: LegacyRecord, trendUp: bool)

  /** The range caption: the first record's range when it has both bounds. */
  function ShownRange(first: LegacyRecord): (r: Option<NormalRange>)
    ensures r.Some? <==> first.normalRange.Some? && first.normalRange.value.min.Some? && first.normalRange.value.max.Some?
    ensures r.Some? ==> r == first.normalRange
  {
    if first.normalRange.Some? && first.normalRange.value.min.Some? && first.normalRange.value.max.Some?
    then first.normalRange
    else None
  }

  /** The chart card for `records` (`None`: no records given). */
  function Render(records: Option<seq<LegacyRecord>>, parseDate: string -> int, labelOf: string -> string): (v: ChartView)
    ensures v.NoData? <==> records.None? || |records.value| == 0
  {
    if records.None? || |records.value| == 0 then NoData
    else
      var sorted := SortedRecords(records.value, parseDate);
      var values := Values(sorted);
      Chart(ThinLabels(Labels(sorted, labelOf)), values, ShownRange(sorted[0]), sorted[|sorted| - 1],
            values[|values| - 1] > values[0])
  }

  /** For a non-empty list: one value per record in date order, the latest record is the last
      one, the range is shown exactly when the oldest record has both bounds, and the trend is
      up exactly when the newest value exceeds the oldest. */
  lemma RenderChart(records: seq<LegacyRecord>, parseDate: string -> int, labelOf: string -> string)
    requires |records| > 0
    ensures var v := Render(Some(records), parseDate, labelOf);
            var sorted := SortedRecords(records, parseDate);
            && v.Chart?
            && v.values == Values(sorted)
            && v.latest == sorted[|sorted| - 1]
            && (v.range.Some? <==> sorted[0].normalRange.Some? && sorted[0].normalRange.value.min.Some?
                                   && sorted[0].normalRange.value.max.Some?)
            && (v.trendUp <==> sorted[|sorted| - 1].value > sorted[0].value)
  {
  }

  /** The axis shows at most six labels, starting with the oldest record's; six or fewer are all
      shown. */
  lemma RenderLabels(records: seq<LegacyRecord>, parseDate: string -> int, labelOf: string -> string)
    requires |records| > 0
    ensures var v := Render(Some(records), parseDate, labelOf);
            var sorted := SortedRecords(records, parseDate);
            && v.Chart?
            && 0 < |v.labels| <= MAX_LABELS
            && v.labels[0] == labelOf(sorted[0].date)
            && (|records| <= MAX_LABELS ==> v.labels == Labels(sorted, labelOf))
  {
    var sorted := SortedRecords(records, parseDate);
    var labels := Labels(sorted, labelOf);
    if |labels| > MAX_LABELS {
      ThinnedLabels(labels);
    }
  }

  /** The "Latest" figure is a record with the newest date. */
  lemma LatestIsNewest(records: seq<LegacyRecord>, parseDate: string -> int, labelOf: string -> string)
    requires |records| > 0
    ensures var v := Render(Some(records), parseDate, labelOf);
            v.Chart? && v.latest in records
            && forall k :: 0 <= k < |records| ==> parseDate(records[k].date) <= parseDate(v.latest.date)
  {
    var sorted := SortedRecords(records, parseDate);
    var last := sorted[|sorted| - 1];
    SortedRecordsAscending(records, parseDate);
    assert last in multiset(records);
    forall k | 0 <= k < |records| ensures parseDate(records[k].date) <= parseDate(last.date) {
      assert records[k] in multiset(sorted);
      var i :| 0 <= i < |sorted| && sorted[i] == records[k];
    }
  }
}
