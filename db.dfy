/** The new app's entry store. The SQLite table `entries` is modelled as an in-memory table:
    a sequence of rows plus the next AUTOINCREMENT id. What is modelled exactly is the app's
    side of each statement: the values it binds, the WHERE clauses and parameters it builds, the
    ORDER BY it asks for and the mapping of result rows back to entries. */
module Db {
  import opened Js
  import opened Types
  import opened Seqs

  /** A value bound to a `?` placeholder (or stored in a column). */
  datatype SqlValue = SqlNull | SqlText(text: string) | SqlReal(num: real) | SqlInt(n: int)

  /** One row of `entries`; `None` is SQL NULL. */
  datatype Row = Row(
    id: int,
    biomarkerCode: Option<string>,
    biomarkerName: string,
    valueNum: Option<real>,
    valueText: Option<string>,
    unit: Option<string>,
    takenAt: int,
    location: Option<string>,
    notes: Option<string>)

  /** The optional filters of `queryEntries`. */
  datatype QueryFilters = QueryFilters(biomarkerCode: Option<string>, startMs: Option<int>, endMs: Option<int>)

  /** The three WHERE clauses `queryEntries` can emit. */
  datatype Clause = CodeEquals | TakenAtFrom | TakenAtTo {
    function Sql(): (r: string)
      ensures |r| > 0
    {
      match this
      case CodeEquals => "biomarkerCode = ?"
      case TakenAtFrom => "takenAt >= ?"
      case TakenAtTo => "takenAt <= ?"
    }
  }

  // ---------------------------------------------------------------------------------------------
  // Parameter binding of insertEntry / updateEntry

  /** `x ?? null` for a text column. */
  function TextParam(v: Nullable<string>): (r: SqlValue)
    ensures r == SqlNull <==> v.IsNullish()
    ensures v.Value? ==> r == SqlText(v.value)
  {
    if v.Value? then SqlText(v.value) else SqlNull
  }

  /** `x ?? null` for a numeric column. */
  function RealParam(v: Nullable<real>): (r: SqlValue)
    ensures r == SqlNull <==> v.IsNullish()
    ensures v.Value? ==> r == SqlReal(v.value)
  {
    if v.Value? then SqlReal(v.value) else SqlNull
  }

  predicate TextOrNull(v: SqlValue) {
    v.SqlNull? || v.SqlText?
  }

  /** Eight values in column order: code, name, valueNum, valueText, unit, takenAt, location,
      notes, with the right type or NULL in each place. */
  predicate WellTyped(p: seq<SqlValue>) {
    && |p| == 8
    && TextOrNull(p[0]) && p[1].SqlText? && (p[2].SqlNull? || p[2].SqlReal?)
    && TextOrNull(p[3]) && TextOrNull(p[4]) && p[5].SqlInt? && TextOrNull(p[6]) && TextOrNull(p[7])
  }

  /** The values `insertEntry` binds, in column order; every optional field defaults to NULL. */
  function InsertParams(e: BiomarkerEntry): (r: seq<SqlValue>)
    ensures WellTyped(r)
    ensures r[1] == SqlText(e.biomarkerName) && r[5] == SqlInt(e.takenAt)
  {
    [TextParam(e.biomarkerCode), SqlText(e.biomarkerName), RealParam(e.valueNum), TextParam(e.valueText),
     TextParam(e.unit), SqlInt(e.takenAt), TextParam(e.location), TextParam(e.notes)]
  }

  /** The values `updateEntry` binds: the same eight, then the id for `WHERE id = ?`. */
  function UpdateParams(e: BiomarkerEntry): (r: seq<SqlValue>)
    requires e.id.Some?
    ensures |r| == 9 && r[..8] == InsertParams(e) && r[8] == SqlInt(e.id.value)
  {
    InsertParams(e) + [SqlInt(e.id.value)]
  }

  function TextColumn(v: SqlValue): Option<string> {
    if v.SqlText? then Some(v.text) else None
  }

  function RealColumn(v: SqlValue): Option<real> {
    if v.SqlReal? then Some(v.num) else None
  }

  /** The row the database stores for eight bound values. */
  function RowFromParams(id: int, p: seq<SqlValue>): (r: Row)
    requires WellTyped(p)
    ensures r.id == id && r.biomarkerName == p[1].text && r.takenAt == p[5].n
  {
    Row(id, TextColumn(p[0]), p[1].text, RealColumn(p[2]), TextColumn(p[3]), TextColumn(p[4]),
        p[5].n, TextColumn(p[6]), TextColumn(p[7]))
  }

  // ---------------------------------------------------------------------------------------------
  // Row mapping of queryEntries

  /** The entry `queryEntries` builds from a result row: every field is copied, and a NULL
      column becomes `null` (never `undefined`). */
  function ToEntry(r: Row): (e: BiomarkerEntry)
    ensures e.id == Some(r.id) && e.biomarkerName == r.biomarkerName && e.takenAt == r.takenAt
    ensures !e.biomarkerCode.Undefined? && !e.valueNum.Undefined? && !e.valueText.Undefined?
    ensures !e.unit.Undefined? && !e.location.Undefined? && !e.notes.Undefined?
    ensures (r.biomarkerCode.Some? ==> e.biomarkerCode == Value(r.biomarkerCode.value)) && (r.biomarkerCode.None? ==> e.biomarkerCode == Null)
    ensures (r.valueNum.Some? ==> e.valueNum == Value(r.valueNum.value)) && (r.valueNum.None? ==> e.valueNum == Null)
    ensures (r.valueText.Some? ==> e.valueText == Value(r.valueText.value)) && (r.valueText.None? ==> e.valueText == Null)
    ensures (r.unit.Some? ==> e.unit == Value(r.unit.value)) && (r.unit.None? ==> e.unit == Null)
    ensures (r.location.Some? ==> e.location == Value(r.location.value)) && (r.location.None? ==> e.location == Null)
    ensures (r.notes.Some? ==> e.notes == Value(r.notes.value)) && (r.notes.None? ==> e.notes == Null)
  {
    BiomarkerEntry(Some(r.id), OptionOrNull(r.biomarkerCode), r.biomarkerName, OptionOrNull(r.valueNum),
                   OptionOrNull(r.valueText), OptionOrNull(r.unit), r.takenAt, OptionOrNull(r.location),
                   OptionOrNull(r.notes))
  }

  /** The entry with every missing optional field turned into `null`, and the given id. */
  function WithNulls(e: BiomarkerEntry, id: int): BiomarkerEntry {
    BiomarkerEntry(Some(id), e.biomarkerCode.OrNull(), e.biomarkerName, e.valueNum.OrNull(),
                   e.valueText.OrNull(), e.unit.OrNull(), e.takenAt, e.location.OrNull(), e.notes.OrNull())
  }

  /** Storing an entry and reading it back gives the entry itself, with its id and with `null`
      for each field it left undefined. */
  lemma InsertRoundTrip(e: BiomarkerEntry, id: int)
    ensures ToEntry(RowFromParams(id, InsertParams(e))) == WithNulls(e, id)
  {
  }

  // ---------------------------------------------------------------------------------------------
  // The WHERE builder of queryEntries

  /** The parameter bound for a clause. */
  function ParamFor(c: Clause, f: QueryFilters): SqlValue {
    match c
    case CodeEquals => SqlText(GetOr(f.biomarkerCode, ""))
    case TakenAtFrom => SqlInt(GetOr(f.startMs, 0))
    case TakenAtTo => SqlInt(GetOr(f.endMs, 0))
  }

  /** `where` holds exactly the clauses of the truthy filters, in the order code, start, end, and
      `params[i]` is the value for `where[i]`. */
  ghost predicate Built(f: QueryFilters, where: seq<Clause>, params: seq<SqlValue>) {
    && |where| == |params|
    && Subseq(where, [CodeEquals, TakenAtFrom, TakenAtTo])
    && (CodeEquals in where <==> TruthyOptString(f.biomarkerCode))
    && (TakenAtFrom in where <==> TruthyOptInt(f.startMs))
    && (TakenAtTo in where <==> TruthyOptInt(f.endMs))
    && (forall i :: 0 <= i < |where| ==> params[i] == ParamFor(where[i], f))
  }

  /** The `where`/`params` pushes of `queryEntries`. A missing filter, an empty code and a bound
      of 0 add nothing. */
  method BuildFilters(f: QueryFilters) returns (where: seq<Clause>, params: seq<SqlValue>)
    ensures Built(f, where, params)
  {
    where := [];
    params := [];
    if TruthyOptString(f.biomarkerCode) {
      where := where + [CodeEquals];
      params := params + [SqlText(f.biomarkerCode.value)];
    }
    if TruthyOptInt(f.startMs) {
      where := where + [TakenAtFrom];
      params := params + [SqlInt(f.startMs.value)];
    }
    if TruthyOptInt(f.endMs) {
      where := where + [TakenAtTo];
      params := params + [SqlInt(f.endMs.value)];
    }
    assert where == Picked(TruthyOptString(f.biomarkerCode), TruthyOptInt(f.startMs), TruthyOptInt(f.endMs));
    PickedInOrder(TruthyOptString(f.biomarkerCode), TruthyOptInt(f.startMs), TruthyOptInt(f.endMs));
  }

  /** The clauses chosen by three flags, in the fixed order. */
  function Picked(code: bool, start: bool, end: bool): seq<Clause> {
    (if code then [CodeEquals] else []) + (if start then [TakenAtFrom] else []) + (if end then [TakenAtTo] else [])
  }

  /** Any choice of clauses keeps the fixed order. */
  lemma PickedInOrder(code: bool, start: bool, end: bool)
    ensures Subseq(Picked(code, start, end), [CodeEquals, TakenAtFrom, TakenAtTo])
  {
    var all := [CodeEquals, TakenAtFrom, TakenAtTo];
    assert all[1..] == [TakenAtFrom, TakenAtTo] && all[2..] == [TakenAtTo] && all[3..] == [];
    var w := Picked(code, start, end);
    if code {
      assert w[1..] == Picked(false, start, end);
    }
    if start {
      assert Picked(false, start, end)[1..] == Picked(false, false, end);
    }
  }

  /** The `WHERE ... AND ...` text: empty when there are no clauses. */
  function WhereSql(where: seq<Clause>): (r: string)
    ensures where == [] <==> r == ""
  {
    if where == [] then "" else "WHERE " + JoinAnd(where)
  }

  function JoinAnd(where: seq<Clause>): string
    requires where != []
  {
    if |where| == 1 then where[0].Sql() else where[0].Sql() + " AND " + JoinAnd(where[1..])
  }

  /** How SQL evaluates one clause on a row. `biomarkerCode = ?` is false on a NULL code. */
  predicate Holds(r: Row, c: Clause, p: SqlValue) {
    match c
    case CodeEquals => p.SqlText? && r.biomarkerCode == Some(p.text)
    case TakenAtFrom => p.SqlInt? && r.takenAt >= p.n
    case TakenAtTo => p.SqlInt? && r.takenAt <= p.n
  }

  /** A row passes the WHERE clause when every clause holds (no clause: every row passes). */
  predicate AllHold(r: Row, where: seq<Clause>, params: seq<SqlValue>)
    requires |where| == |params|
  {
    forall i :: 0 <= i < |where| ==> Holds(r, where[i], params[i])
  }

  /** The rows a query is meant to return: the code matches, and `takenAt` lies within the
      given bounds, both inclusive. Falsy filters constrain nothing. */
  predicate Selected(r: Row, f: QueryFilters) {
    && (TruthyOptString(f.biomarkerCode) ==> r.biomarkerCode == Some(f.biomarkerCode.value))
    && (TruthyOptInt(f.startMs) ==> r.takenAt >= f.startMs.value)
    && (TruthyOptInt(f.endMs) ==> r.takenAt <= f.endMs.value)
  }

  /** The built clauses select exactly the intended rows. */
  lemma {:induction false} BuiltClausesSelect(f: QueryFilters, where: seq<Clause>, params: seq<SqlValue>, r: Row)
    requires Built(f, where, params)
    ensures AllHold(r, where, params) <==> Selected(r, f)
  {
    if AllHold(r, where, params) {
      if TruthyOptString(f.biomarkerCode) {
        var i :| 0 <= i < |where| && where[i] == CodeEquals;
        assert Holds(r, where[i], params[i]);
      }
      if TruthyOptInt(f.startMs) {
        var i :| 0 <= i < |where| && where[i] == TakenAtFrom;
        assert Holds(r, where[i], params[i]);
      }
      if TruthyOptInt(f.endMs) {
        var i :| 0 <= i < |where| && where[i] == TakenAtTo;
        assert Holds(r, where[i], params[i]);
      }
    }
    if Selected(r, f) {
      forall i | 0 <= i < |where| ensures Holds(r, where[i], params[i]) {
        assert where[i] in where;
      }
    }
  }

  // ---------------------------------------------------------------------------------------------
  // ORDER BY takenAt DESC, id DESC

  /** `a` may come before `b`: later first, and the larger id first among equal instants. */
  predicate NewestFirst(a: Row, b: Row) {
    a.takenAt > b.takenAt || (a.takenAt == b.takenAt && a.id >= b.id)
  }

  lemma NewestFirstTotalPreorder()
    ensures TotalPreorder(NewestFirst)
  {
  }

  /** Two rows that may each come before the other share their instant and their id. */
  lemma NewestFirstAntisymmetric(a: Row, b: Row)
    requires NewestFirst(a, b) && NewestFirst(b, a)
    ensures a.takenAt == b.takenAt && a.id == b.id
  {
  }

  /** Replaces every row that has id `id` by `row`. */
  function ReplaceById(rows: seq<Row>, id: int, row: Row): (r: seq<Row>)
    ensures |r| == |rows|
    ensures forall i :: 0 <= i < |rows| ==> r[i] == (if rows[i].id == id then row else rows[i])
  {
    Map(rows, (x: Row) => if x.id == id then row else x)
  }

  /** The rows without id `id`, in their order. */
  function RemoveById(rows: seq<Row>, id: int): (r: seq<Row>)
    ensures forall i :: 0 <= i < |r| ==> r[i] in rows && r[i].id != id
    ensures forall i :: 0 <= i < |rows| && rows[i].id != id ==> rows[i] in r
  {
    Filter(rows, (x: Row) => x.id != id)
  }

  class EntryTable {
    var rows: seq<Row>
    /** The id AUTOINCREMENT will hand out next. */
    var nextId: int

    /** Ids are positive, unique and below `nextId`. */
    ghost predicate Valid()
      reads this
    {
      && nextId >= 1
      && (forall i :: 0 <= i < |rows| ==> 1 <= rows[i].id < nextId)
      && (forall i, j :: 0 <= i < j < |rows| ==> rows[i].id != rows[j].id)
    }

    /** `CREATE TABLE IF NOT EXISTS entries`: an empty table. */
    constructor()
      ensures Valid() && rows == [] && nextId == 1
    {
      rows := [];
      nextId := 1;
    }

    /** The rows `queryEntries(f)` returns, before mapping: the selected rows, newest first. */
    function QueryRows(f: QueryFilters): (r: seq<Row>)
      reads this
      ensures multiset(r) == multiset(Filter(rows, (x: Row) => Selected(x, f)))
      ensures SortedBy(r, NewestFirst)
    {
      NewestFirstTotalPreorder();
      SortByIsSorted(Filter(rows, (x: Row) => Selected(x, f)), NewestFirst);
      SortBy(Filter(rows, (x: Row) => Selected(x, f)), NewestFirst)
    }

    /** `insertEntry(entry)`: binds the eight values and appends the stored row; the result is
        the new row's id. */
    method InsertEntry(e: BiomarkerEntry) returns (id: int)
      requires Valid()
      modifies this
      ensures Valid()
      ensures id == old(nextId) && nextId == old(nextId) + 1
      ensures rows == old(rows) + [RowFromParams(id, InsertParams(e))]
    {
      var params := InsertParams(e);
      id := nextId;
      rows := rows + [RowFromParams(id, params)];
      nextId := nextId + 1;
    }

    /** `updateEntry(entry)`: binds the eight values and the entry's own id; the row with that
        id (if any) gets the new values, every other row is unchanged. The entry's type demands
        an id. */
    method UpdateEntry(e: BiomarkerEntry)
      requires Valid() && e.id.Some?
      modifies this
      ensures Valid() && nextId == old(nextId)
      ensures rows == ReplaceById(old(rows), e.id.value, RowFromParams(e.id.value, InsertParams(e)))
    {
      var params := UpdateParams(e);
      var row := RowFromParams(params[8].n, params[..8]);
      rows := ReplaceById(rows, params[8].n, row);
      assert forall i :: 0 <= i < |rows| ==> rows[i].id == old(rows)[i].id;
    }

    /** `deleteEntry(id)`: removes the row with that id. */
    method DeleteEntry(id: int)
      requires Valid()
      modifies this
      ensures Valid() && nextId == old(nextId)
      ensures rows == RemoveById(old(rows), id)
    {
      var kept := RemoveById(rows, id);
      assert NoDuplicates(rows);
      FilterNoDuplicates(rows, (x: Row) => x.id != id);
      forall i, j | 0 <= i < j < |kept| ensures kept[i].id != kept[j].id {
        var a :| 0 <= a < |rows| && rows[a] == kept[i];
        var b :| 0 <= b < |rows| && rows[b] == kept[j];
        assert kept[i] != kept[j];
      }
      rows := kept;
    }

    /** `queryEntries(f)`: builds the WHERE clauses, lets the database select and order the
        rows, and maps each row to an entry. The result holds exactly the selected rows, newest
        first. */
    method QueryEntries(f: QueryFilters) returns (result: seq<BiomarkerEntry>)
      ensures result == Map(QueryRows(f), ToEntry)
    {
      var where, params := BuildFilters(f);
      var matching := Filter(rows, (x: Row) => AllHold(x, where, params));
      forall x: Row ensures AllHold(x, where, params) == Selected(x, f) {
        BuiltClausesSelect(f, where, params, x);
      }
      FilterExt(rows, (x: Row) => AllHold(x, where, params), (x: Row) => Selected(x, f));
      var ordered := SortBy(matching, NewestFirst);
      result := Map(ordered, ToEntry);
    }
  }

  /** Every returned row satisfies the filters, and every row of the table that satisfies them
      is returned. */
  lemma QueryRowsSelected(t: EntryTable, f: QueryFilters)
    ensures forall i :: 0 <= i < |t.QueryRows(f)| ==> t.QueryRows(f)[i] in t.rows && Selected(t.QueryRows(f)[i], f)
    ensures forall i :: 0 <= i < |t.rows| && Selected(t.rows[i], f) ==> t.rows[i] in t.QueryRows(f)
  {
    var s := Filter(t.rows, (x: Row) => Selected(x, f));
    var r := t.QueryRows(f);
    forall i | 0 <= i < |r| ensures r[i] in t.rows && Selected(r[i], f) {
      assert r[i] in multiset(s);
    }
    forall i | 0 <= i < |t.rows| && Selected(t.rows[i], f) ensures t.rows[i] in r {
      assert t.rows[i] in multiset(r);
    }
  }

  /** With no effective filter (a missing filter, an empty code, a zero bound) there is no WHERE
      clause and every row is returned. */
  lemma NoFiltersReturnAll(t: EntryTable, f: QueryFilters)
    requires !TruthyOptString(f.biomarkerCode) && !TruthyOptInt(f.startMs) && !TruthyOptInt(f.endMs)
    ensures multiset(t.QueryRows(f)) == multiset(t.rows)
  {
    FilterExt(t.rows, (x: Row) => Selected(x, f), (x: Row) => true);
    FilterTrue(t.rows);
  }

  /** A built filter has no WHERE clause exactly when no filter is effective. */
  lemma NoWhereIffNoFilter(f: QueryFilters, where: seq<Clause>, params: seq<SqlValue>)
    requires Built(f, where, params)
    ensures WhereSql(where) == "" <==> (!TruthyOptString(f.biomarkerCode) && !TruthyOptInt(f.startMs) && !TruthyOptInt(f.endMs))
  {
    if where != [] {
      assert where[0] in where;
    }
  }
}
