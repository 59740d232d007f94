/** The new app's reference catalog, its index by code, and the catalog search. */
module Dataset {
  import opened Js
  import opened Types
  import opened Strings
  import opened Seqs

  /** The catalog entries. */
  const WEIGHT: Biomarker :=
    Biomarker("weight", "Weight",
      [UnitOption("kg", "kg"), UnitOption("lb", "lb")], Some("kg"),
      Some(ReferenceRange(Value(40.0), Value(200.0), Value("kg"), Undefined)),
      Some(["body weight", "mass"]))

  const HEIGHT: Biomarker :=
    Biomarker("height", "Height",
      [UnitOption("cm", "cm"), UnitOption("in", "in")], Some("cm"),
      Some(ReferenceRange(Value(120.0), Value(220.0), Value("cm"), Undefined)),
      Some(["stature"]))

  const HR_REST: Biomarker :=
    Biomarker("hr_rest", "Resting Heart Rate",
      [UnitOption("bpm", "bpm")], Some("bpm"),
      Some(ReferenceRange(Value(40.0), Value(100.0), Value("bpm"), Undefined)),
      Some(["RHR"]))

  const SPO2: Biomarker :=
    Biomarker("spo2", "Blood Oxygen Saturation",
      [UnitOption("%", "%")], Some("%"),
      Some(ReferenceRange(Value(95.0), Value(100.0), Value("%"), Undefined)),
      Some(["Pulse ox", "SpO2"]))

  const TEMP: Biomarker :=
    Biomarker("temp", "Body Temperature",
      [UnitOption("C", "\U{00B0}C"), UnitOption("F", "\U{00B0}F")], Some("C"),
      Some(ReferenceRange(Value(36.1), Value(37.2), Value("C"), Undefined)),
      Some(["Temperature", "Body temp"]))

  const BP_SYSTOLIC: Biomarker :=
    Biomarker("bp_systolic", "Blood Pressure Systolic",
      [UnitOption("mmHg", "mmHg")], Some("mmHg"),
      Some(ReferenceRange(Value(90.0), Value(120.0), Value("mmHg"), Undefined)),
      Some(["SBP"]))

  const BP_DIASTOLIC: Biomarker :=
    Biomarker("bp_diastolic", "Blood Pressure Diastolic",
      [UnitOption("mmHg", "mmHg")], Some("mmHg"),
      Some(ReferenceRange(Value(60.0), Value(80.0), Value("mmHg"), Undefined)),
      Some(["DBP"]))

  const GLUCOSE: Biomarker :=
    Biomarker("glucose", "Blood Glucose",
      [UnitOption("mg/dL", "mg/dL"), UnitOption("mmol/L", "mmol/L")], Some("mg/dL"),
      Some(ReferenceRange(Value(70.0), Value(99.0), Value("mg/dL"), Value("fasting"))),
      Some(["BG", "glucose fasting"]))

  const HBA1C: Biomarker :=
    Biomarker("hba1c", "Hemoglobin A1c",
      [UnitOption("%", "%")], Some("%"),
      Some(ReferenceRange(Value(4.0), Value(5.6), Value("%"), Undefined)),
      Some(["A1c"]))

  const BMI: Biomarker :=
    Biomarker("bmi", "Body Mass Index",
      [UnitOption("kg/m^2", "kg/m^2")], Some("kg/m^2"),
      Some(ReferenceRange(Value(18.5), Value(24.9), Value("kg/m^2"), Undefined)),
      Some([]))

  /** The catalog, in its declared order. */
  const BIOMARKERS: seq<Biomarker> :=
    [WEIGHT, HEIGHT, HR_REST, SPO2, TEMP,
     BP_SYSTOLIC, BP_DIASTOLIC, GLUCOSE, HBA1C, BMI]

  /** The default `limit` of a search. */
  const DEFAULT_LIMIT: int := 20

  /** `Object.fromEntries(s.map(b => [b.code, b]))`: a later entry overwrites an earlier one
      with the same code. */
  function FromEntries(s: seq<Biomarker>): (m: map<string, Biomarker>)
    ensures forall c :: c in m ==> m[c] in s && m[c].code == c
    ensures forall i :: 0 <= i < |s| ==> s[i].code in m
  {
    if s == [] then map[]
    else
      var init := s[..|s| - 1];
      assert forall i :: 0 <= i < |init| ==> init[i] == s[i];
      FromEntries(init)[s[|s| - 1].code := s[|s| - 1]]
  }

  const BIOMARKER_INDEX: map<string, Biomarker> := FromEntries(BIOMARKERS)

  ghost predicate CodesUnique(s: seq<Biomarker>) {
    forall i, j :: 0 <= i < j < |s| ==> s[i].code != s[j].code
  }

  /** With unique codes, the index maps each code to the one entry that has it. */
  lemma {:induction false} FromEntriesUnique(s: seq<Biomarker>)
    requires CodesUnique(s)
    ensures forall i :: 0 <= i < |s| ==> FromEntries(s)[s[i].code] == s[i]
  {
    if s != [] {
      var init := s[..|s| - 1];
      FromEntriesUnique(init);
      forall i | 0 <= i < |s| ensures FromEntries(s)[s[i].code] == s[i] {
        if i < |s| - 1 {
          assert init[i] == s[i];
          assert s[i].code != s[|s| - 1].code;
        }
      }
    }
  }

  /** Every code appears once in the catalog. */
  lemma CatalogCodesUnique()
    ensures CodesUnique(BIOMARKERS)
  {
  }

  /** `BIOMARKER_INDEX[c]` is defined exactly for the catalog's codes, and is the entry with code `c`. */
  lemma IndexLookup(c: string)
    ensures c in BIOMARKER_INDEX <==> exists i :: 0 <= i < |BIOMARKERS| && BIOMARKERS[i].code == c
    ensures forall i :: 0 <= i < |BIOMARKERS| && BIOMARKERS[i].code == c ==> BIOMARKER_INDEX[c] == BIOMARKERS[i]
  {
    CatalogCodesUnique();
    FromEntriesUnique(BIOMARKERS);
    if c in BIOMARKER_INDEX {
      var b := BIOMARKER_INDEX[c];
      var i :| 0 <= i < |BIOMARKERS| && BIOMARKERS[i] == b;
    }
  }

  /** The index entry for "glucose" is the Blood Glucose entry. */
  lemma IndexGlucose()
    ensures "glucose" in BIOMARKER_INDEX && BIOMARKER_INDEX["glucose"] == GLUCOSE
  {
    IndexLookup("glucose");
    assert BIOMARKERS[7] == GLUCOSE;
  }

  predicate HasUnit(units: seq<UnitOption>, code: string) {
    exists i :: 0 <= i < |units| && units[i].code == code
  }

  /** The invariants a catalog entry is built to satisfy. */
  ghost predicate WellFormed(b: Biomarker) {
    && |b.units| > 0
    && (b.defaultUnit.Some? ==> HasUnit(b.units, b.defaultUnit.value))
    && (b.referenceRange.Some? ==>
          var r := b.referenceRange.value;
          && (r.low.Value? && r.high.Value? ==> r.low.value <= r.high.value)
          && (r.unit.Value? ==> HasUnit(b.units, r.unit.value)))
  }

  /** Every catalog entry has units, a default unit among them, an ordered range, and a range
      unit among its units. */
  lemma CatalogWellFormed()
    ensures forall i :: 0 <= i < |BIOMARKERS| ==> WellFormed(BIOMARKERS[i])
  {
    forall i | 0 <= i < |BIOMARKERS| ensures WellFormed(BIOMARKERS[i]) {
      var b := BIOMARKERS[i];
      assert b.units[0].code == b.defaultUnit.value;
      assert b.units[0].code == b.referenceRange.value.unit.value;
    }
  }

  predicate SomeAliasContains(aliases: seq<string>, q: string) {
    aliases != [] && (Contains(ToLower(aliases[0]), q) || SomeAliasContains(aliases[1..], q))
  }

  /** The filter of a search: the lower-cased name, code or some alias contains `q`. */
  predicate Matches(b: Biomarker, q: string) {
    || Contains(ToLower(b.name), q)
    || Contains(ToLower(b.code), q)
    || (b.aliases.Some? && SomeAliasContains(b.aliases.value, q))
  }

  /** `query.trim().toLowerCase()`. */
  function NormalizeQuery(query: string): string {
    ToLower(Trim(query))
  }

  /** The search over an already normalized query `q`: the whole catalog when `q` is "", else the
      matching entries, then the first `limit` of them. */
  function SearchNormalized(catalog: seq<Biomarker>, q: string, limit: int): (r: seq<Biomarker>)
    ensures Subseq(r, catalog)
    ensures limit >= 0 ==> |r| <= limit
    ensures q != "" ==> forall i :: 0 <= i < |r| ==> Matches(r[i], q)
  {
    if q == "" then
      SubseqRefl(catalog);
      PrefixOfSubseq(catalog, catalog, |SliceTo(catalog, limit)|);
      SliceTo(catalog, limit)
    else
      var matches := MatchesIn(catalog, q);
      var r := SliceTo(matches, limit);
      FilterIsSubseq(catalog, b => Matches(b, q));
      PrefixOfSubseq(matches, catalog, |r|);
      assert forall i :: 0 <= i < |r| ==> r[i] == matches[i];
      r
  }

  /** The body of `searchBiomarkers`, over any catalog. */
  function SearchIn(catalog: seq<Biomarker>, query: string, limit: int): (r: seq<Biomarker>)
    ensures Subseq(r, catalog)
    ensures limit >= 0 ==> |r| <= limit
    ensures NormalizeQuery(query) != "" ==> forall i :: 0 <= i < |r| ==> Matches(r[i], NormalizeQuery(query))
  {
    SearchNormalized(catalog, NormalizeQuery(query), limit)
  }

  /** `searchBiomarkers(query, limit)`: results keep catalog order, are at most `limit` long, and
      (for a non-blank query) each contains the normalized query in its name, code or an alias. */
  function SearchBiomarkers(query: string, limit: int): (r: seq<Biomarker>)
    ensures Subseq(r, BIOMARKERS)
    ensures limit >= 0 ==> |r| <= limit
    ensures NormalizeQuery(query) != "" ==> forall i :: 0 <= i < |r| ==> Matches(r[i], NormalizeQuery(query))
  {
    SearchIn(BIOMARKERS, query, limit)
  }

  /** The entries of a catalog a query matches, in catalog order. */
  function MatchesIn(catalog: seq<Biomarker>, q: string): (r: seq<Biomarker>)
    ensures forall i :: 0 <= i < |r| ==> Matches(r[i], q)
    ensures forall b :: b in r <==> b in catalog && Matches(b, q)
  {
    Filter(catalog, b => Matches(b, q))
  }

  /** An empty or white-space-only query returns the first `limit` catalog entries, in order. */
  lemma SearchBlankQuery(catalog: seq<Biomarker>, query: string, limit: nat)
    requires AllWhitespace(query)
    ensures SearchIn(catalog, query, limit) == catalog[..if limit < |catalog| then limit else |catalog|]
  {
    TrimEmptyIff(query);
  }

  /** A non-blank query returns the first `limit` matching entries; when there are no more
      matches than `limit`, every matching entry is returned. */
  lemma SearchReturnsFirstMatches(catalog: seq<Biomarker>, query: string, limit: nat)
    requires NormalizeQuery(query) != ""
    ensures SearchIn(catalog, query, limit) == SliceTo(MatchesIn(catalog, NormalizeQuery(query)), limit)
    ensures |MatchesIn(catalog, NormalizeQuery(query))| <= limit ==>
              forall b :: b in catalog && Matches(b, NormalizeQuery(query)) ==> b in SearchIn(catalog, query, limit)
  {
  }

  /** "a1c" is already normalized. */
  lemma NormalizeA1c()
    ensures NormalizeQuery("a1c") == "a1c"
  {
    LowerTrimKeeps("a1c");
  }

  /** Hemoglobin A1c matches "a1c" through its alias "A1c". */
  lemma Hba1cMatchesA1c()
    ensures Matches(HBA1C, "a1c")
  {
    var q := "a1c";
    assert HBA1C.aliases == Some(["A1c"]);
    assert ToLower("A1c") == q;
    ContainsSelf(q);
    assert SomeAliasContains(["A1c"], q);
  }

  /** When the catalog is no longer than `limit`, a search finds every entry that matches. */
  lemma SearchFindsEveryMatch(catalog: seq<Biomarker>, query: string, limit: nat, b: Biomarker)
    requires |catalog| <= limit
    requires b in catalog && NormalizeQuery(query) != "" && Matches(b, NormalizeQuery(query))
    ensures b in SearchIn(catalog, query, limit)
  {
    SearchReturnsFirstMatches(catalog, query, limit);
  }

  /** A query that normalizes to "a1c" (such as "a1c" itself, or " A1C ") finds Hemoglobin A1c. */
  lemma SearchA1c(query: string)
    requires NormalizeQuery(query) == "a1c"
    ensures HBA1C in SearchBiomarkers(query, DEFAULT_LIMIT)
  {
    Hba1cMatchesA1c();
    SearchFindsEveryMatch(BIOMARKERS, query, DEFAULT_LIMIT, HBA1C);
  }
}
