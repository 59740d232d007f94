/** The new app's "Add Entry" form: its state, the events that change it, the save rule and the
    entry it saves. */
module EntryForm {
  import opened Js
  import opened Types
  import opened Strings
  import opened Seqs
  import opened Dataset
  import Db

  /** The unit the selection effect picks: `defaultUnit ?? units[0]?.code ?? null`. An empty
      `defaultUnit` is kept (`??` only skips a missing value). */
  function DefaultUnitOf(b: Biomarker): (u: Option<string>)
    ensures b.defaultUnit.Some? ==> u == b.defaultUnit
    ensures b.defaultUnit.None? && |b.units| > 0 ==> u == Some(b.units[0].code)
    ensures b.defaultUnit.None? && |b.units| == 0 ==> u.None?
  {
    if b.defaultUnit.Some? then b.defaultUnit
    else if |b.units| > 0 then Some(b.units[0].code)
    else None
  }

  /** For a well-formed catalog entry the chosen unit is one of its own units. */
  lemma DefaultUnitIsAUnit(b: Biomarker)
    requires WellFormed(b)
    ensures DefaultUnitOf(b).Some? && HasUnit(b.units, DefaultUnitOf(b).value)
  {
    if b.defaultUnit.None? {
      assert b.units[0].code == DefaultUnitOf(b).value;
    }
  }

  class EntryFormScreen {
    var query: string
    /** `selectedBiomarker`; `None` is `null`. */
    var selected: Option<Biomarker>
    /** `unit`; `None` is `null`. */
    var unit: Option<string>
    var valueNum: string
    var valueText: string
    /** The chosen instant, epoch ms. */
    var takenAt: int
    var location: string
    var notes: string

    /** The initial state; the date defaults to `now`. */
    constructor(now: int)
      ensures query == "" && selected.None? && unit.None?
      ensures valueNum == "" && valueText == "" && takenAt == now && location == "" && notes == ""
    {
      query := "";
      selected := None;
      unit := None;
      valueNum := "";
      valueText := "";
      takenAt := now;
      location := "";
      notes := "";
    }

    /** Pressing a search result selects it; the selection effect then fills in the unit, but
        only when none is set (a missing or empty unit). */
    method SelectBiomarker(b: Biomarker)
      modifies this
      ensures selected == Some(b) && FieldText() == b.name
      ensures !TruthyOptString(old(unit)) ==> unit == DefaultUnitOf(b)
      ensures TruthyOptString(old(unit)) ==> unit == old(unit)
      ensures query == old(query) && valueNum == old(valueNum) && valueText == old(valueText)
      ensures takenAt == old(takenAt) && location == old(location) && notes == old(notes)
    {
      selected := Some(b);
      if !TruthyOptString(unit) {
        unit := DefaultUnitOf(b);
      }
    }

    /** Typing in the biomarker field drops the selection and replaces the query; the unit is
        kept. */
    method OnChangeText(t: string)
      modifies this
      ensures selected.None? && query == t && FieldText() == t
      ensures unit == old(unit) && valueNum == old(valueNum) && valueText == old(valueText)
      ensures takenAt == old(takenAt) && location == old(location) && notes == old(notes)
    {
      selected := None;
      query := t;
    }

    /** Picking a unit from the menu. */
    method ChooseUnit(code: string)
      modifies this
      ensures unit == Some(code)
      ensures query == old(query) && selected == old(selected) && valueNum == old(valueNum)
      ensures valueText == old(valueText) && takenAt == old(takenAt) && location == old(location)
      ensures notes == old(notes)
    {
      unit := Some(code);
    }

    /** The text the biomarker field shows: the selection's name, else the query. */
    function FieldText(): (r: string)
      reads this
      ensures selected.Some? ==> r == selected.value.name
      ensures selected.None? ==> r == query
    {
      if selected.Some? then selected.value.name else query
    }

    /** The search results listed under the field: shown only while nothing is selected and the
        query is not empty. */
    function ShownResults(): (r: seq<Biomarker>)
      reads this
      ensures selected.Some? || query == "" ==> r == []
      ensures selected.None? && query != "" ==> r == SearchBiomarkers(query, DEFAULT_LIMIT)
      ensures |r| <= DEFAULT_LIMIT && Subseq(r, BIOMARKERS)
    {
      if selected.None? && |query| > 0 then SearchBiomarkers(query, DEFAULT_LIMIT) else []
    }

    /** `canSave`: a biomarker is selected or the trimmed query is not empty, a unit is set, and
        a numeric or text value is given. */
    predicate CanSave()
      reads this
    {
      if selected.None? && Trim(query) == "" then false
      else if !TruthyOptString(unit) then false
      else if valueNum == "" && valueText == "" then false
      else true
    }

    /** The entry `onSave` builds; `toNumber` is JavaScript's `Number` on the numeric field. */
    function EntryToSave(toNumber: string -> real): (e: BiomarkerEntry)
      reads this
      ensures e.id.None?
      ensures e.biomarkerCode == (if selected.Some? then Value(selected.value.code) else Null)
      ensures e.biomarkerName == (if selected.Some? then selected.value.name else Trim(query))
      ensures e.valueNum.Null? <==> valueNum == ""
      ensures e.valueNum.Value? ==> e.valueNum.value == toNumber(valueNum)
      ensures e.valueText == StringOrNull(valueText)
      ensures e.unit == OptionOrNull(unit)
      ensures e.takenAt == takenAt
      ensures e.location == StringOrNull(location) && e.notes == StringOrNull(notes)
    {
      BiomarkerEntry(
        None,
        if selected.Some? then Value(selected.value.code) else Null,
        if selected.Some? then selected.value.name else Trim(query),
        if valueNum != "" then Value(toNumber(valueNum)) else Null,
        StringOrNull(valueText),
        OptionOrNull(unit),
        takenAt,
        StringOrNull(location),
        StringOrNull(notes))
    }

    /** `onSave`: inserts the built entry (the save button is disabled unless `CanSave()`, but
        `onSave` itself checks nothing). */
    method OnSave(table: Db.EntryTable, toNumber: string -> real) returns (id: int)
      requires table.Valid()
      modifies table
      ensures table.Valid()
      ensures id == old(table.nextId)
      ensures table.rows == old(table.rows) + [Db.RowFromParams(id, Db.InsertParams(EntryToSave(toNumber)))]
    {
      id := table.InsertEntry(EntryToSave(toNumber));
    }
  }

  /** Whatever `canSave` admits saves a named entry with a non-empty unit and some value. */
  lemma CanSaveGivesCompleteEntry(f: EntryFormScreen, toNumber: string -> real)
    requires f.CanSave()
    ensures var e := f.EntryToSave(toNumber);
            && e.unit.Value? && e.unit.value != ""
            && (e.valueNum.Value? || e.valueText.Value?)
            && (f.selected.None? ==> e.biomarkerName != "")
  {
  }

  /** `canSave` fails exactly when one of its three requirements fails. */
  lemma CanSaveIff(f: EntryFormScreen)
    ensures f.CanSave() <==>
              && (f.selected.Some? || !AllWhitespace(f.query))
              && TruthyOptString(f.unit)
              && (f.valueNum != "" || f.valueText != "")
  {
    TrimEmptyIff(f.query);
  }

  /** With nothing selected, a query that is not blank lists exactly the catalog entries it
      matches, in catalog order: the catalog is shorter than the limit, so none is cut off. */
  lemma ShownResultsAreMatches(f: EntryFormScreen)
    requires f.selected.None? && NormalizeQuery(f.query) != ""
    ensures f.ShownResults() == MatchesIn(BIOMARKERS, NormalizeQuery(f.query))
    ensures forall b :: b in f.ShownResults() <==> b in BIOMARKERS && Matches(b, NormalizeQuery(f.query))
  {
    var q := NormalizeQuery(f.query);
    SearchReturnsFirstMatches(BIOMARKERS, f.query, DEFAULT_LIMIT);
    assert |MatchesIn(BIOMARKERS, q)| <= |BIOMARKERS| by {
      FilterIsSubseq(BIOMARKERS, b => Matches(b, q));
    }
  }

  /** A query of blanks lists the whole catalog rather than nothing. */
  lemma BlankQueryListsCatalog(f: EntryFormScreen)
    requires f.selected.None? && |f.query| > 0 && AllWhitespace(f.query)
    ensures f.ShownResults() == BIOMARKERS
  {
    SearchBlankQuery(BIOMARKERS, f.query, DEFAULT_LIMIT);
  }
}
