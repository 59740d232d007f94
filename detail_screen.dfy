/** The new app's biomarker detail screen: it loads one biomarker's entries, puts them in
    chronological order and charts the numeric ones. */
module BiomarkerDetail {
  import opened Js
  import opened Types
  import opened Seqs
  import Db

  /** One chart point: the instant (epoch ms) and the value. */
  datatype Point = Point(x: int, y: real)

  /** `typeof e.valueNum === 'number' && !isNaN(e.valueNum)`; NaN is not modelled. */
  predicate IsNumeric(e: BiomarkerEntry) {
    e.valueNum.Value?
  }

  /** The point of an entry; only applied to numeric entries. */
  function PointOf(e: BiomarkerEntry): Point {
    Point(e.takenAt, if e.valueNum.Value? then e.valueNum.value else 0.0)
  }

  /** `numericPoints`: one point per numeric entry, in the entries' order. */
  function NumericPoints(entries: seq<BiomarkerEntry>): (r: seq<Point>)
    ensures |r| <= |entries|
  {
    Map(Filter(entries, IsNumeric), PointOf)
  }

  /** Every point is the instant and value of some numeric entry. */
  lemma NumericPointsSound(entries: seq<BiomarkerEntry>)
    ensures forall i :: 0 <= i < |NumericPoints(entries)| ==>
              exists k :: 0 <= k < |entries| && IsNumeric(entries[k])
                          && NumericPoints(entries)[i] == Point(entries[k].takenAt, entries[k].valueNum.value)
  {
    var numeric := Filter(entries, IsNumeric);
    var r := NumericPoints(entries);
    forall i | 0 <= i < |r|
      ensures exists k :: 0 <= k < |entries| && IsNumeric(entries[k])
                          && r[i] == Point(entries[k].takenAt, entries[k].valueNum.value)
    {
      assert numeric[i] in entries;
      var k :| 0 <= k < |entries| && entries[k] == numeric[i];
      assert r[i] == PointOf(numeric[i]);
    }
  }

  /** Every numeric entry contributes its point. */
  lemma NumericPointsComplete(entries: seq<BiomarkerEntry>)
    ensures forall k :: 0 <= k < |entries| && IsNumeric(entries[k]) ==>
              Point(entries[k].takenAt, entries[k].valueNum.value) in NumericPoints(entries)
  {
    var numeric := Filter(entries, IsNumeric);
    var r := NumericPoints(entries);
    forall k | 0 <= k < |entries| && IsNumeric(entries[k])
      ensures Point(entries[k].takenAt, entries[k].valueNum.value) in r
    {
      assert entries[k] in numeric;
      var i :| 0 <= i < |numeric| && numeric[i] == entries[k];
      assert r[i] == PointOf(entries[k]);
    }
  }

  /** The points keep the order of the entries: they are a subsequence of all entries' points. */
  lemma NumericPointsInOrder(entries: seq<BiomarkerEntry>)
    ensures Subseq(NumericPoints(entries), Map(entries, PointOf))
  {
    FilterIsSubseq(entries, IsNumeric);
    MapSubseq(Filter(entries, IsNumeric), entries, PointOf);
  }

  lemma {:induction false} MapSubseq<T, U>(a: seq<T>, b: seq<T>, f: T -> U)
    requires Subseq(a, b)
    ensures Subseq(Map(a, f), Map(b, f))
    decreases |b|
  {
    if a != [] && b != [] {
      assert Map(b, f)[1..] == Map(b[1..], f);
      assert Map(a, f)[1..] == Map(a[1..], f);
      if a[0] == b[0] {
        MapSubseq(a[1..], b[1..], f);
      } else {
        MapSubseq(a, b[1..], f);
        if Map(a, f)[0] == Map(b, f)[0] {
          SubseqDropHead(Map(a, f), Map(b[1..], f));
          SubseqSkip(Map(a, f)[1..], Map(b, f)[0], Map(b[1..], f));
          assert [Map(b, f)[0]] + Map(b[1..], f) == Map(b, f);
        }
      }
    }
  }

  /** The "no numeric data" branch is taken exactly when no entry has a numeric value. */
  lemma NoPointsIffNoNumericEntry(entries: seq<BiomarkerEntry>)
    ensures |NumericPoints(entries)| == 0 <==> forall k :: 0 <= k < |entries| ==> !IsNumeric(entries[k])
  {
    if exists k :: 0 <= k < |entries| && IsNumeric(entries[k]) {
      var k :| 0 <= k < |entries| && IsNumeric(entries[k]);
      NumericPointsComplete(entries);
      assert Point(entries[k].takenAt, entries[k].valueNum.value) in NumericPoints(entries);
    }
  }

  /** `rows.reverse()`: reverses the array in place. */
  method ReverseInPlace<T>(a: array<T>)
    modifies a
    ensures a[..] == Reverse(old(a[..]))
  {
    var i := 0;
    while i < a.Length / 2
      invariant 0 <= i <= a.Length / 2
      invariant forall k :: 0 <= k < i ==> a[k] == old(a[a.Length - 1 - k]) && a[a.Length - 1 - k] == old(a[k])
      invariant forall k :: i <= k < a.Length - i ==> a[k] == old(a[k])
    {
      a[i], a[a.Length - 1 - i] := a[a.Length - 1 - i], a[i];
      i := i + 1;
    }
  }

  /** The array the query resolves to, reversed in place and read back. */
  method ReversedCopy<T>(rows: seq<T>) returns (r: seq<T>)
    ensures r == Reverse(rows)
  {
    var a := new T[|rows|](i requires 0 <= i < |rows| => rows[i]);
    assert a[..] == rows;
    ReverseInPlace(a);
    r := a[..];
  }

  class BiomarkerDetailScreen {
    /** The route's biomarker code. */
    const code: string
    var entries: seq<BiomarkerEntry>

    constructor(code: string)
      ensures this.code == code && entries == []
    {
      this.code := code;
      entries := [];
    }

    /** The filter the screen queries with: the code only. */
    function Filters(): (f: Db.QueryFilters)
      reads this
      ensures f.biomarkerCode == Some(code) && f.startMs.None? && f.endMs.None?
    {
      Db.QueryFilters(Some(code), None, None)
    }

    /** Loads the entries with the route's code and reverses them from newest first into
        chronological order. */
    method Load(table: Db.EntryTable)
      modifies this
      ensures entries == Reverse(Map(table.QueryRows(Filters()), Db.ToEntry))
      ensures Loaded(entries, code)
    {
      var rows := table.QueryEntries(Filters());
      entries := ReversedCopy(rows);
      LoadedQuery(table, code);
    }

    function Points(): (r: seq<Point>)
      reads this
      ensures |r| <= |entries|
      ensures |r| == 0 <==> forall k :: 0 <= k < |entries| ==> !IsNumeric(entries[k])
    {
      NoPointsIffNoNumericEntry(entries);
      NumericPoints(entries)
    }
  }

  /** What the loaded list promises: ascending `takenAt`, and (for a non-empty code) only
      entries with that code. */
  ghost predicate Loaded(entries: seq<BiomarkerEntry>, code: string) {
    && (forall i, j :: 0 <= i < j < |entries| ==> entries[i].takenAt <= entries[j].takenAt)
    && (code != "" ==> forall i :: 0 <= i < |entries| ==> entries[i].biomarkerCode == Value(code))
  }

  /** The reversed result of a query by code is chronological and holds only that code. */
  lemma LoadedQuery(table: Db.EntryTable, code: string)
    ensures Loaded(Reverse(Map(table.QueryRows(Db.QueryFilters(Some(code), None, None)), Db.ToEntry)), code)
  {
    Chronological(table.QueryRows(Db.QueryFilters(Some(code), None, None)));
    OnlyThisCode(table, code);
  }

  /** Querying by a non-empty code yields entries with that code only. */
  lemma OnlyThisCode(table: Db.EntryTable, code: string)
    ensures var es := Reverse(Map(table.QueryRows(Db.QueryFilters(Some(code), None, None)), Db.ToEntry));
            code != "" ==> forall i :: 0 <= i < |es| ==> es[i].biomarkerCode == Value(code)
  {
    var f := Db.QueryFilters(Some(code), None, None);
    var rows := table.QueryRows(f);
    if code != "" {
      Db.QueryRowsSelected(table, f);
      forall i | 0 <= i < |rows| ensures rows[i].biomarkerCode == Some(code) {
        assert Db.Selected(rows[i], f);
      }
      RowsWithCode(rows, code);
    }
  }

  /** Rows that all carry one code, mapped and reversed, are entries that all carry it. */
  lemma RowsWithCode(rows: seq<Db.Row>, code: string)
    requires forall i :: 0 <= i < |rows| ==> rows[i].biomarkerCode == Some(code)
    ensures var es := Reverse(Map(rows, Db.ToEntry));
            forall i :: 0 <= i < |es| ==> es[i].biomarkerCode == Value(code)
  {
    var m := Map(rows, Db.ToEntry);
    var es := Reverse(m);
    forall i | 0 <= i < |es| ensures es[i].biomarkerCode == Value(code) {
      var k := |rows| - 1 - i;
      assert es[i] == m[k];
      assert m[k] == Db.ToEntry(rows[k]);
      assert Db.ToEntry(rows[k]).biomarkerCode == OptionOrNull(rows[k].biomarkerCode);
    }
  }

  /** Rows ordered newest first, mapped and reversed, are in ascending order of `takenAt`. */
  lemma Chronological(rows: seq<Db.Row>)
    requires SortedBy(rows, Db.NewestFirst)
    ensures var es := Reverse(Map(rows, Db.ToEntry));
            forall i, j :: 0 <= i < j < |es| ==> es[i].takenAt <= es[j].takenAt
  {
    MappedNewestFirst(rows);
    ReverseAscending(Map(rows, Db.ToEntry));
  }

  /** Mapping rows to entries keeps their instants, so newest-first rows give newest-first
      entries. */
  lemma MappedNewestFirst(rows: seq<Db.Row>)
    requires SortedBy(rows, Db.NewestFirst)
    ensures var m := Map(rows, Db.ToEntry);
            forall i, j :: 0 <= i < j < |m| ==> m[i].takenAt >= m[j].takenAt
  {
    var m := Map(rows, Db.ToEntry);
    forall i, j | 0 <= i < j < |m| ensures m[i].takenAt >= m[j].takenAt {
      assert Db.NewestFirst(rows[i], rows[j]);
    }
  }

  /** A list whose instants never increase, reversed, has instants that never decrease. */
  lemma ReverseAscending(m: seq<BiomarkerEntry>)
    requires forall i, j :: 0 <= i < j < |m| ==> m[i].takenAt >= m[j].takenAt
    ensures var es := Reverse(m);
            forall i, j :: 0 <= i < j < |es| ==> es[i].takenAt <= es[j].takenAt
  {
    var es := Reverse(m);
    var n := |m|;
    forall i, j | 0 <= i < j < |es| ensures es[i].takenAt <= es[j].takenAt {
      assert es[i] == m[n - 1 - i] && es[j] == m[n - 1 - j];
    }
  }
}
