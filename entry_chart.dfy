/** The new app's small entry chart: numeric entries become points, in reverse order. */
module EntryChart {
  import opened Js
  import opened Types
  import opened Seqs
  import opened BiomarkerDetail
  import Db

  /** `typeof e.valueNum === 'number' && e.valueNum != null`. */
  predicate HasNumber(e: BiomarkerEntry) {
    e.valueNum.Value?
  }

  /** The `numeric` pipeline: filter, map to points, reverse. */
  function ChartPoints(entries: seq<BiomarkerEntry>): (r: seq<Point>)
    ensures |r| <= |entries|
  {
    Reverse(Map(Filter(entries, HasNumber), PointOf))
  }

  /** The chart shows the detail screen's points in the opposite order (the two filters agree
      because NaN is not modelled). */
  lemma ChartIsReversedPoints(entries: seq<BiomarkerEntry>)
    ensures ChartPoints(entries) == Reverse(NumericPoints(entries))
  {
    FilterExt(entries, HasNumber, IsNumeric);
  }

  /** Point `i` of the chart is the point of the `i`-th numeric entry counted from the end. */
  lemma ChartPointsReversed(entries: seq<BiomarkerEntry>)
    ensures var f := Filter(entries, HasNumber);
            |ChartPoints(entries)| == |f|
            && forall i :: 0 <= i < |f| ==> ChartPoints(entries)[i] == Point(f[|f| - 1 - i].takenAt, f[|f| - 1 - i].valueNum.value)
  {
  }

  /** The "no numeric data" text is shown exactly when no entry has a number. */
  lemma NoChartIffNoNumber(entries: seq<BiomarkerEntry>)
    ensures |ChartPoints(entries)| == 0 <==> forall k :: 0 <= k < |entries| ==> !HasNumber(entries[k])
  {
    ChartIsReversedPoints(entries);
    NoPointsIffNoNumericEntry(entries);
  }

  /** Entries that run from the latest instant to the earliest. */
  ghost predicate Descending(es: seq<BiomarkerEntry>) {
    forall i, j :: 0 <= i < j < |es| ==> es[i].takenAt >= es[j].takenAt
  }

  /** Keeping some of a descending list keeps it descending. */
  lemma FilterDescending(es: seq<BiomarkerEntry>, p: BiomarkerEntry -> bool)
    requires Descending(es)
    ensures Descending(Filter(es, p))
  {
    var f := Filter(es, p);
    FilterIsSubseq(es, p);
    forall i, j | 0 <= i < j < |f| ensures f[i].takenAt >= f[j].takenAt {
      SubseqIndices(f, es, i, j);
    }
  }

  /** Points in ascending order of time. */
  ghost predicate Ascending(pts: seq<Point>) {
    forall i, j :: 0 <= i < j < |pts| ==> pts[i].x <= pts[j].x
  }

  /** Listing the instants of a descending list back to front gives ascending points. */
  lemma BackToFrontAscending(f: seq<BiomarkerEntry>, pts: seq<Point>)
    requires Descending(f)
    requires |pts| == |f| && forall i :: 0 <= i < |f| ==> pts[i].x == f[|f| - 1 - i].takenAt
    ensures Ascending(pts)
  {
    forall i, j | 0 <= i < j < |pts| ensures pts[i].x <= pts[j].x {
      var a, b := |f| - 1 - j, |f| - 1 - i;
      assert pts[i].x == f[b].takenAt && pts[j].x == f[a].takenAt;
    }
  }

  /** Fed a descending list (a query result is newest first), the chart's points come out in
      ascending time. */
  lemma ChartOfDescendingAscending(es: seq<BiomarkerEntry>)
    requires Descending(es)
    ensures Ascending(ChartPoints(es))
  {
    FilterDescending(es, HasNumber);
    ChartPointsReversed(es);
    BackToFrontAscending(Filter(es, HasNumber), ChartPoints(es));
  }

  /** A query result mapped to entries is descending. */
  lemma QueryResultDescending(rows: seq<Db.Row>)
    requires SortedBy(rows, Db.NewestFirst)
    ensures Descending(Map(rows, Db.ToEntry))
  {
    var es := Map(rows, Db.ToEntry);
    forall i, j | 0 <= i < j < |es| ensures es[i].takenAt >= es[j].takenAt {
      assert Db.NewestFirst(rows[i], rows[j]);
    }
  }
}
