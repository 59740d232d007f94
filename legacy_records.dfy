/** The legacy app's record store: the in-memory list of records that the context provider keeps,
    persists after every change, and loads once at start-up. */
module LegacyRecords {
  import opened Js
  import opened Seqs
  import opened LegacyCatalog

  /** A stored measurement. `normalRange` is copied from the catalog when the record is added;
      `None` is a record that has none (an absent property). */
  datatype LegacyRecord = LegacyRecord(
    id: string,
    createdAt: string,
    biomarkerName: string,
    value: real,
    unit: Option<string>,
    date: string,
    location: string,
    notes: string,
    normalRange: Option<NormalRange>,
    category: string)

  /** What the add form hands to `addBiomarkerRecord`: a record without `id` and `createdAt`. */
  datatype RecordDraft = RecordDraft(
    biomarkerName: string,
    value: real,
    unit: Option<string>,
    date: string,
    location: string,
    notes: string,
    normalRange: Option<NormalRange>,
    category: string)

  /** `updatedData`: the properties it carries (`Some`) overwrite the record's, the others are
      kept. */
  datatype RecordPatch = RecordPatch(
    id: Option<string>,
    createdAt: Option<string>,
    biomarkerName: Option<string>,
    value: Option<real>,
    unit: Option<Option<string>>,
    date: Option<string>,
    location: Option<string>,
    notes: Option<string>,
    normalRange: Option<Option<NormalRange>>,
    category: Option<string>)

  /** The patch without properties. */
  const EMPTY_PATCH := RecordPatch(None, None, None, None, None, None, None, None, None, None)

  /** `{ ...record, id, createdAt }`. */
  function WithIdentity(d: RecordDraft, id: string, createdAt: string): (r: LegacyRecord)
    ensures r.id == id && r.createdAt == createdAt
    ensures r.biomarkerName == d.biomarkerName && r.value == d.value && r.unit == d.unit
    ensures r.date == d.date && r.location == d.location && r.notes == d.notes
    ensures r.normalRange == d.normalRange && r.category == d.category
  {
    LegacyRecord(id, createdAt, d.biomarkerName, d.value, d.unit, d.date, d.location, d.notes,
                 d.normalRange, d.category)
  }

  /** `{ ...record, ...updatedData }`. */
  function Merge(r: LegacyRecord, p: RecordPatch): LegacyRecord {
    LegacyRecord(
      GetOr(p.id, r.id),
      GetOr(p.createdAt, r.createdAt),
      GetOr(p.biomarkerName, r.biomarkerName),
      GetOr(p.value, r.value),
      GetOr(p.unit, r.unit),
      GetOr(p.date, r.date),
      GetOr(p.location, r.location),
      GetOr(p.notes, r.notes),
      GetOr(p.normalRange, r.normalRange),
      GetOr(p.category, r.category))
  }

  /** A merge takes each property from the patch when the patch has it and from the record
      otherwise; the empty patch changes nothing. */
  lemma MergeOverlays(r: LegacyRecord, p: RecordPatch)
    ensures var m := Merge(r, p);
            && (p.id.Some? ==> m.id == p.id.value) && (p.id.None? ==> m.id == r.id)
            && (p.createdAt.Some? ==> m.createdAt == p.createdAt.value) && (p.createdAt.None? ==> m.createdAt == r.createdAt)
            && (p.biomarkerName.Some? ==> m.biomarkerName == p.biomarkerName.value) && (p.biomarkerName.None? ==> m.biomarkerName == r.biomarkerName)
            && (p.value.Some? ==> m.value == p.value.value) && (p.value.None? ==> m.value == r.value)
            && (p.unit.Some? ==> m.unit == p.unit.value) && (p.unit.None? ==> m.unit == r.unit)
            && (p.date.Some? ==> m.date == p.date.value) && (p.date.None? ==> m.date == r.date)
            && (p.location.Some? ==> m.location == p.location.value) && (p.location.None? ==> m.location == r.location)
            && (p.notes.Some? ==> m.notes == p.notes.value) && (p.notes.None? ==> m.notes == r.notes)
            && (p.normalRange.Some? ==> m.normalRange == p.normalRange.value) && (p.normalRange.None? ==> m.normalRange == r.normalRange)
            && (p.category.Some? ==> m.category == p.category.value) && (p.category.None? ==> m.category == r.category)
    ensures Merge(r, EMPTY_PATCH) == r
  {
  }

  /** `[...records, newRecord]`. */
  function Added(records: seq<LegacyRecord>, d: RecordDraft, id: string, createdAt: string): seq<LegacyRecord> {
    records + [WithIdentity(d, id, createdAt)]
  }

  /** `records.filter(record => record.id !== id)`. */
  function Deleted(records: seq<LegacyRecord>, id: string): seq<LegacyRecord> {
    Filter(records, (r: LegacyRecord) => r.id != id)
  }

  /** `records.map(record => record.id === id ? { ...record, ...updatedData } : record)`. */
  function Updated(records: seq<LegacyRecord>, id: string, p: RecordPatch): seq<LegacyRecord> {
    Map(records, (r: LegacyRecord) => if r.id == id then Merge(r, p) else r)
  }

  /** Adding appends exactly one record, with the given id and creation time, after the
      unchanged earlier records. */
  lemma AddAppends(records: seq<LegacyRecord>, d: RecordDraft, id: string, createdAt: string)
    ensures var a := Added(records, d, id, createdAt);
            && |a| == |records| + 1
            && a[..|records|] == records
            && a[|records|].id == id && a[|records|].createdAt == createdAt
            && a[|records|].biomarkerName == d.biomarkerName && a[|records|].value == d.value
  {
    var a := Added(records, d, id, createdAt);
    assert a[..|records|] == records;
  }

  /** Deleting keeps the other records in their order and removes every record with that id:
      a record stays exactly when its id differs. */
  lemma DeleteRemovesId(records: seq<LegacyRecord>, id: string)
    ensures Subseq(Deleted(records, id), records)
    ensures forall i :: 0 <= i < |Deleted(records, id)| ==> Deleted(records, id)[i].id != id
    ensures forall x :: x in records ==> (x in Deleted(records, id) <==> x.id != id)
  {
    FilterIsSubseq(records, (r: LegacyRecord) => r.id != id);
  }

  /** Deleting an id that no record has leaves the list as it was. */
  lemma {:induction false} DeleteAbsentNoChange(records: seq<LegacyRecord>, id: string)
    requires forall i :: 0 <= i < |records| ==> records[i].id != id
    ensures Deleted(records, id) == records
  {
    if records != [] {
      DeleteAbsentNoChange(records[1..], id);
    }
  }

  /** Updating keeps the length; records with the id get the patch overlaid, the others stay as
      they were. */
  lemma UpdateOverlays(records: seq<LegacyRecord>, id: string, p: RecordPatch)
    ensures |Updated(records, id, p)| == |records|
    ensures forall i :: 0 <= i < |records| && records[i].id == id ==> Updated(records, id, p)[i] == Merge(records[i], p)
    ensures forall i :: 0 <= i < |records| && records[i].id != id ==> Updated(records, id, p)[i] == records[i]
  {
  }

  /** Updating an id that no record has, or updating with the empty patch, changes nothing. */
  lemma UpdateNoChange(records: seq<LegacyRecord>, id: string, p: RecordPatch)
    requires p == EMPTY_PATCH || forall i :: 0 <= i < |records| ==> records[i].id != id
    ensures Updated(records, id, p) == records
  {
    var u := Updated(records, id, p);
    forall i | 0 <= i < |records| ensures u[i] == records[i] {
      if records[i].id == id {
        MergeOverlays(records[i], p);
      }
    }
  }

  /** The context provider's state, and the value the storage holds under `biomarkerRecords`
      (`None`: nothing stored). */
  class RecordStore {
    var records: seq<LegacyRecord>
    var loading: bool
    var stored: Option<seq<LegacyRecord>>

    /** The initial state: no records, still loading, over whatever the storage holds. */
    constructor(stored: Option<seq<LegacyRecord>>)
      ensures records == [] && loading && this.stored == stored
    {
      records := [];
      loading := true;
      this.stored := stored;
    }

    /** `loadBiomarkerRecords`: takes the stored list if there is one, and stops loading. */
    method Load()
      modifies this
      ensures stored.Some? ==> records == stored.value
      ensures stored.None? ==> records == old(records)
      ensures !loading && stored == old(stored)
    {
      if stored.Some? {
        records := stored.value;
      }
      loading := false;
    }

    /** `addBiomarkerRecord`; `id` is `Date.now().toString()` and `createdAt` the ISO time. */
    method Add(d: RecordDraft, id: string, createdAt: string)
      modifies this
      ensures records == Added(old(records), d, id, createdAt)
      ensures stored == Some(records) && loading == old(loading)
    {
      var updated := records + [WithIdentity(d, id, createdAt)];
      records := updated;
      stored := Some(updated);
    }

    /** `deleteBiomarkerRecord`. */
    method Delete(id: string)
      modifies this
      ensures records == Deleted(old(records), id)
      ensures stored == Some(records) && loading == old(loading)
    {
      var updated := Filter(records, (r: LegacyRecord) => r.id != id);
      records := updated;
      stored := Some(updated);
    }

    /** `updateBiomarkerRecord`. */
    method Update(id: string, p: RecordPatch)
      modifies this
      ensures records == Updated(old(records), id, p)
      ensures stored == Some(records) && loading == old(loading)
    {
      var updated := Map(records, (r: LegacyRecord) => if r.id == id then Merge(r, p) else r);
      records := updated;
      stored := Some(updated);
    }
  }

  /** Starting up with nothing stored leaves the list empty once loading is done. */
  method LoadNothingStored() returns (s: RecordStore)
    ensures fresh(s) && s.records == [] && !s.loading && s.stored.None?
  {
    s := new RecordStore(None);
    s.Load();
  }

  /** After a mutation, loading again (the next start-up) restores exactly the current list. */
  method ReloadAfterAdd(s: RecordStore, d: RecordDraft, id: string, createdAt: string)
    modifies s
    ensures s.records == Added(old(s.records), d, id, createdAt) && s.stored == Some(s.records)
  {
    s.Add(d, id, createdAt);
    var before := s.records;
    s.Load();
    assert s.records == before;
  }
}
