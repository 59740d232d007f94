/** The legacy app's "Add Biomarker" modal: name search over the catalog, selection, the submit
    check, the record it builds, and the live range status. */
module LegacyAddModal {
  import opened Js
  import opened Strings
  import opened Seqs
  import opened LegacyCatalog
  import opened LegacyRecords
  import LegacyList

  /** The name matches the query, both lower-cased; there is no trim and no other field. */
  predicate NameMatches(b: LegacyBiomarker, query: string) {
    Contains(ToLower(b.name), ToLower(query))
  }

  /** `filteredBiomarkers`. */
  function FilteredBiomarkers(catalog: seq<LegacyBiomarker>, query: string): (r: seq<LegacyBiomarker>)
    ensures |r| <= |catalog|
  {
    Filter(catalog, (b: LegacyBiomarker) => NameMatches(b, query))
  }

  /** The filtered list keeps catalog order and holds exactly the catalog entries whose name
      matches. */
  lemma FilteredExactly(catalog: seq<LegacyBiomarker>, query: string)
    ensures Subseq(FilteredBiomarkers(catalog, query), catalog)
    ensures forall b :: b in FilteredBiomarkers(catalog, query) <==> b in catalog && NameMatches(b, query)
  {
    FilterIsSubseq(catalog, (b: LegacyBiomarker) => NameMatches(b, query));
  }

  /** The empty query matches every name. */
  lemma EmptyQueryMatchesAll(catalog: seq<LegacyBiomarker>)
    ensures FilteredBiomarkers(catalog, "") == catalog
  {
    forall b: LegacyBiomarker ensures NameMatches(b, "") {
      assert IsPrefix("", ToLower(b.name));
    }
    FilterExt(catalog, (b: LegacyBiomarker) => NameMatches(b, ""), (x: LegacyBiomarker) => true);
    FilterTrue(catalog);
  }

  /** The number of suggestions shown. */
  const SUGGESTION_LIMIT := 10

  class AddBiomarkerForm {
    /** The table searched (the app's name-sorted `BIOMARKERS`). */
    const catalog: seq<LegacyBiomarker>
    var searchQuery: string
    /** `selectedBiomarker`; `None` is `null`. */
    var selected: Option<LegacyBiomarker>
    var value: string
    /** `selectedUnit`; `None` is `undefined`, which only a biomarker without units yields. */
    var selectedUnit: Option<string>
    /** The date field, `YYYY-MM-DD`. */
    var date: string
    var location: string
    var notes: string
    var showSuggestions: bool

    /** The blank form over `catalog`; `today` is today's ISO date. */
    constructor(catalog: seq<LegacyBiomarker>, today: string)
      ensures this.catalog == catalog && Blank(today)
    {
      this.catalog := catalog;
      searchQuery := "";
      selected := None;
      value := "";
      selectedUnit := Some("");
      date := today;
      location := "";
      notes := "";
      showSuggestions := false;
    }

    /** Every field at its initial value, the date at `today`. */
    predicate Blank(today: string)
      reads this
    {
      && searchQuery == "" && selected.None? && value == "" && selectedUnit == Some("")
      && date == today && location == "" && notes == "" && !showSuggestions
    }

    /** `resetForm`. */
    method ResetForm(today: string)
      modifies this
      ensures Blank(today)
    {
      searchQuery := "";
      selected := None;
      value := "";
      selectedUnit := Some("");
      date := today;
      location := "";
      notes := "";
      showSuggestions := false;
    }

    /** Typing in the search bar: a new query, and the suggestions open. The selection stays. */
    method OnChangeText(text: string)
      modifies this
      ensures searchQuery == text && showSuggestions
      ensures selected == old(selected) && value == old(value) && selectedUnit == old(selectedUnit)
      ensures date == old(date) && location == old(location) && notes == old(notes)
    {
      searchQuery := text;
      showSuggestions := true;
    }

    /** The suggestion list: at most ten matches, shown only while open and the query is not
        empty. */
    function Suggestions(): (r: seq<LegacyBiomarker>)
      reads this
      ensures |r| <= SUGGESTION_LIMIT
      ensures !showSuggestions || searchQuery == "" ==> r == []
      ensures showSuggestions && searchQuery != "" ==>
                var all := FilteredBiomarkers(catalog, searchQuery);
                r <= all && |r| == (if |all| < SUGGESTION_LIMIT then |all| else SUGGESTION_LIMIT)
    {
      if showSuggestions && searchQuery != "" then
        SliceTo(FilteredBiomarkers(catalog, searchQuery), SUGGESTION_LIMIT)
      else []
    }

    /** `handleBiomarkerSelect`: the query becomes the name, the unit the first unit, and the
        suggestions close. */
    method HandleBiomarkerSelect(b: LegacyBiomarker)
      modifies this
      ensures selected == Some(b) && searchQuery == b.name && !showSuggestions
      ensures |b.units| > 0 ==> selectedUnit == Some(b.units[0])
      ensures |b.units| == 0 ==> selectedUnit.None?
      ensures value == old(value) && date == old(date) && location == old(location) && notes == old(notes)
    {
      selected := Some(b);
      searchQuery := b.name;
      selectedUnit := if |b.units| > 0 then Some(b.units[0]) else None;
      showSuggestions := false;
    }

    /** What `handleSubmit` checks before adding anything. */
    predicate CanSubmit()
      reads this
    {
      selected.Some? && value != "" && date != ""
    }

    /** The record `handleSubmit` hands to the store; `parseFloat` is a parameter. */
    function Submitted(parseFloat: string -> real): (d: RecordDraft)
      reads this
      requires selected.Some?
      ensures d.biomarkerName == selected.value.name && d.category == selected.value.category
      ensures d.normalRange == Some(selected.value.normalRange)
      ensures d.value == parseFloat(value) && d.unit == selectedUnit && d.date == date
      ensures d.location == location && d.notes == notes
    {
      RecordDraft(selected.value.name, parseFloat(value), selectedUnit, date, location, notes,
                  Some(selected.value.normalRange), selected.value.category)
    }

    /** `handleSubmit`: rejected (nothing added, nothing reset) without a selection, a value or a
        date; otherwise adds the record and resets the form. */
    method HandleSubmit(store: RecordStore, parseFloat: string -> real, id: string, createdAt: string, today: string)
      returns (added: bool)
      modifies this, store
      ensures added == old(CanSubmit())
      ensures store.loading == old(store.loading)
      ensures !added ==> store.records == old(store.records) && store.stored == old(store.stored)
      ensures !added ==> searchQuery == old(searchQuery) && selected == old(selected) && value == old(value)
                         && selectedUnit == old(selectedUnit) && date == old(date) && location == old(location)
                         && notes == old(notes) && showSuggestions == old(showSuggestions)
      ensures added ==> store.records == Added(old(store.records), old(Submitted(parseFloat)), id, createdAt)
      ensures added ==> store.stored == Some(store.records) && Blank(today)
    {
      if selected.None? || value == "" || date == "" {
        added := false;
        return;
      }
      var record := Submitted(parseFloat);
      store.Add(record, id, createdAt);
      ResetForm(today);
      added := true;
    }

    /** The live range status: unknown without a selection, without a value, or when the
        biomarker lacks a bound; otherwise whether the parsed value lies within both bounds. */
    function IsInNormalRange(parseFloat: string -> real): (r: Option<bool>)
      reads this
      ensures r.None? <==> selected.None? || value == "" || selected.value.normalRange.min.None?
                           || selected.value.normalRange.max.None?
      ensures r == Some(true) <==> selected.Some? && value != "" && selected.value.normalRange.min.Some?
                                   && selected.value.normalRange.max.Some?
                                   && selected.value.normalRange.min.value <= parseFloat(value) <= selected.value.normalRange.max.value
    {
      if selected.None? || value == "" then None
      else
        var nr := selected.value.normalRange;
        if nr.min.None? || nr.max.None? then None
        else Some(parseFloat(value) >= nr.min.value && parseFloat(value) <= nr.max.value)
    }
  }

  /** A suggestion is a matching catalog entry, and with ten or fewer matches every one is
      suggested. */
  lemma SuggestionsAreMatches(f: AddBiomarkerForm)
    requires f.showSuggestions && f.searchQuery != ""
    ensures forall b :: b in f.Suggestions() ==> b in f.catalog && NameMatches(b, f.searchQuery)
    ensures |FilteredBiomarkers(f.catalog, f.searchQuery)| <= SUGGESTION_LIMIT ==>
              forall b :: b in f.catalog && NameMatches(b, f.searchQuery) ==> b in f.Suggestions()
  {
    var all := FilteredBiomarkers(f.catalog, f.searchQuery);
    FilteredExactly(f.catalog, f.searchQuery);
    forall b | b in f.Suggestions() ensures b in all {
      var i :| 0 <= i < |f.Suggestions()| && f.Suggestions()[i] == b;
      assert all[i] == b;
    }
  }

  /** The status the form shows before submitting is the one the record list shows for the
      submitted record. */
  lemma SubmittedRecordKeepsStatus(f: AddBiomarkerForm, parseFloat: string -> real, id: string, createdAt: string)
    requires f.CanSubmit()
    ensures LegacyList.IsInNormalRange(WithIdentity(f.Submitted(parseFloat), id, createdAt)) == f.IsInNormalRange(parseFloat)
  {
  }
}
