/** The legacy app's biomarker table: 127 entries, sorted by name, and the sorted list of
    their categories. */
module LegacyCatalog {
  import opened Js
  import opened Strings
  import opened Seqs

  /** A normal range; `None` is `null`. */
  datatype NormalRange = NormalRange(min: Option<real>, max: Option<real>)

  datatype LegacyBiomarker = LegacyBiomarker(name: string, units: seq<string>, normalRange: NormalRange, category: string)

  /** Common Vital Signs. */
  const VITAL_SIGNS: seq<LegacyBiomarker> := [
    LegacyBiomarker("Weight", ["kg", "lbs", "g"], NormalRange(None, None), "Vital Signs"),
    LegacyBiomarker("Blood Pressure (Systolic)", ["mmHg"], NormalRange(Some(90.0), Some(120.0)), "Vital Signs"),
    LegacyBiomarker("Blood Pressure (Diastolic)", ["mmHg"], NormalRange(Some(60.0), Some(80.0)), "Vital Signs"),
    LegacyBiomarker("Resting Heart Rate", ["bpm"], NormalRange(Some(60.0), Some(100.0)), "Vital Signs"),
    LegacyBiomarker("Heart Rate", ["bpm"], NormalRange(Some(60.0), Some(100.0)), "Vital Signs"),
    LegacyBiomarker("Blood Oxygen (SpO2)", ["%"], NormalRange(Some(95.0), Some(100.0)), "Vital Signs"),
    LegacyBiomarker("Temperature", ["\U{00B0}C", "\U{00B0}F"], NormalRange(Some(36.1), Some(37.2)), "Vital Signs"),
    LegacyBiomarker("Respiratory Rate", ["breaths/min"], NormalRange(Some(12.0), Some(20.0)), "Vital Signs")
  ]

  /** Blood Glucose. */
  const BLOOD_GLUCOSE: seq<LegacyBiomarker> := [
    LegacyBiomarker("Blood Glucose", ["mg/dL", "mmol/L"], NormalRange(Some(70.0), Some(100.0)), "Metabolic"),
    LegacyBiomarker("Fasting Blood Glucose", ["mg/dL", "mmol/L"], NormalRange(Some(70.0), Some(100.0)), "Metabolic"),
    LegacyBiomarker("HbA1c", ["%"], NormalRange(Some(4.0), Some(5.6)), "Metabolic")
  ]

  /** Complete Blood Count (CBC). */
  const BLOOD_COUNT: seq<LegacyBiomarker> := [
    LegacyBiomarker("White Blood Cell Count (WBC)", ["K/uL", "cells/uL"], NormalRange(Some(4.5), Some(11.0)), "Hematology"),
    LegacyBiomarker("Red Blood Cell Count (RBC)", ["M/uL"], NormalRange(Some(4.5), Some(5.9)), "Hematology"),
    LegacyBiomarker("Hemoglobin", ["g/dL"], NormalRange(Some(13.5), Some(17.5)), "Hematology"),
    LegacyBiomarker("Hematocrit", ["%"], NormalRange(Some(38.3), Some(48.6)), "Hematology"),
    LegacyBiomarker("Platelet Count", ["K/uL"], NormalRange(Some(150.0), Some(400.0)), "Hematology"),
    LegacyBiomarker("Mean Corpuscular Volume (MCV)", ["fL"], NormalRange(Some(80.0), Some(100.0)), "Hematology"),
    LegacyBiomarker("Mean Corpuscular Hemoglobin (MCH)", ["pg"], NormalRange(Some(27.0), Some(33.0)), "Hematology"),
    LegacyBiomarker("Mean Corpuscular Hemoglobin Concentration (MCHC)", ["g/dL"], NormalRange(Some(32.0), Some(36.0)), "Hematology"),
    LegacyBiomarker("Red Cell Distribution Width (RDW)", ["%"], NormalRange(Some(11.5), Some(14.5)), "Hematology"),
    LegacyBiomarker("Absolute Neutrophil Count", ["K/uL"], NormalRange(Some(1.5), Some(8.0)), "Hematology"),
    LegacyBiomarker("Absolute Lymphocyte Count", ["K/uL"], NormalRange(Some(1.0), Some(4.0)), "Hematology"),
    LegacyBiomarker("Absolute Monocyte Count", ["K/uL"], NormalRange(Some(0.2), Some(0.8)), "Hematology"),
    LegacyBiomarker("Absolute Eosinophil Count", ["K/uL"], NormalRange(Some(0.0), Some(0.5)), "Hematology"),
    LegacyBiomarker("Absolute Basophil Count", ["K/uL"], NormalRange(Some(0.0), Some(0.2)), "Hematology")
  ]

  /** Comprehensive Metabolic Panel (CMP). */
  const METABOLIC_PANEL: seq<LegacyBiomarker> := [
    LegacyBiomarker("Sodium", ["mEq/L", "mmol/L"], NormalRange(Some(136.0), Some(145.0)), "Electrolytes"),
    LegacyBiomarker("Potassium", ["mEq/L", "mmol/L"], NormalRange(Some(3.5), Some(5.0)), "Electrolytes"),
    LegacyBiomarker("Chloride", ["mEq/L", "mmol/L"], NormalRange(Some(96.0), Some(106.0)), "Electrolytes"),
    LegacyBiomarker("Carbon Dioxide (CO2)", ["mEq/L", "mmol/L"], NormalRange(Some(23.0), Some(29.0)), "Electrolytes"),
    LegacyBiomarker("Blood Urea Nitrogen (BUN)", ["mg/dL"], NormalRange(Some(7.0), Some(20.0)), "Kidney Function"),
    LegacyBiomarker("Creatinine", ["mg/dL"], NormalRange(Some(0.7), Some(1.3)), "Kidney Function"),
    LegacyBiomarker("Calcium", ["mg/dL", "mmol/L"], NormalRange(Some(8.5), Some(10.2)), "Electrolytes"),
    LegacyBiomarker("Albumin", ["g/dL"], NormalRange(Some(3.5), Some(5.5)), "Protein"),
    LegacyBiomarker("Total Protein", ["g/dL"], NormalRange(Some(6.0), Some(8.3)), "Protein"),
    LegacyBiomarker("Alkaline Phosphatase (ALP)", ["U/L"], NormalRange(Some(44.0), Some(147.0)), "Liver Function"),
    LegacyBiomarker("Alanine Aminotransferase (ALT)", ["U/L"], NormalRange(Some(7.0), Some(56.0)), "Liver Function"),
    LegacyBiomarker("Aspartate Aminotransferase (AST)", ["U/L"], NormalRange(Some(10.0), Some(40.0)), "Liver Function"),
    LegacyBiomarker("Bilirubin (Total)", ["mg/dL"], NormalRange(Some(0.1), Some(1.2)), "Liver Function"),
    LegacyBiomarker("Bilirubin (Direct)", ["mg/dL"], NormalRange(Some(0.0), Some(0.3)), "Liver Function")
  ]

  /** Lipid Panel. */
  const LIPID_PANEL: seq<LegacyBiomarker> := [
    LegacyBiomarker("Total Cholesterol", ["mg/dL", "mmol/L"], NormalRange(Some(0.0), Some(200.0)), "Lipids"),
    LegacyBiomarker("LDL Cholesterol", ["mg/dL", "mmol/L"], NormalRange(Some(0.0), Some(100.0)), "Lipids"),
    LegacyBiomarker("HDL Cholesterol", ["mg/dL", "mmol/L"], NormalRange(Some(40.0), Some(200.0)), "Lipids"),
    LegacyBiomarker("Triglycerides", ["mg/dL", "mmol/L"], NormalRange(Some(0.0), Some(150.0)), "Lipids"),
    LegacyBiomarker("VLDL Cholesterol", ["mg/dL"], NormalRange(Some(2.0), Some(30.0)), "Lipids")
  ]

  /** Thyroid Function. */
  const THYROID: seq<LegacyBiomarker> := [
    LegacyBiomarker("TSH (Thyroid Stimulating Hormone)", ["mIU/L"], NormalRange(Some(0.4), Some(4.0)), "Thyroid"),
    LegacyBiomarker("Free T4 (Thyroxine)", ["ng/dL"], NormalRange(Some(0.8), Some(1.8)), "Thyroid"),
    LegacyBiomarker("Free T3 (Triiodothyronine)", ["pg/mL"], NormalRange(Some(2.3), Some(4.2)), "Thyroid"),
    LegacyBiomarker("Total T4", ["\U{03BC}g/dL"], NormalRange(Some(5.0), Some(12.0)), "Thyroid"),
    LegacyBiomarker("Total T3", ["ng/dL"], NormalRange(Some(80.0), Some(200.0)), "Thyroid")
  ]

  /** Vitamins and Minerals. */
  const VITAMINS_MINERALS: seq<LegacyBiomarker> := [
    LegacyBiomarker("Vitamin D (25-OH)", ["ng/mL", "nmol/L"], NormalRange(Some(30.0), Some(100.0)), "Vitamins"),
    LegacyBiomarker("Vitamin B12", ["pg/mL"], NormalRange(Some(200.0), Some(900.0)), "Vitamins"),
    LegacyBiomarker("Folate", ["ng/mL"], NormalRange(Some(2.7), Some(17.0)), "Vitamins"),
    LegacyBiomarker("Iron", ["\U{03BC}g/dL"], NormalRange(Some(60.0), Some(170.0)), "Minerals"),
    LegacyBiomarker("Ferritin", ["ng/mL"], NormalRange(Some(20.0), Some(250.0)), "Minerals"),
    LegacyBiomarker("Magnesium", ["mg/dL"], NormalRange(Some(1.7), Some(2.2)), "Minerals"),
    LegacyBiomarker("Phosphorus", ["mg/dL"], NormalRange(Some(2.5), Some(4.5)), "Minerals"),
    LegacyBiomarker("Zinc", ["\U{03BC}g/dL"], NormalRange(Some(60.0), Some(130.0)), "Minerals")
  ]

  /** Hormones. */
  const HORMONES: seq<LegacyBiomarker> := [
    LegacyBiomarker("Testosterone (Total)", ["ng/dL"], NormalRange(Some(300.0), Some(1000.0)), "Hormones"),
    LegacyBiomarker("Testosterone (Free)", ["pg/mL"], NormalRange(Some(5.0), Some(25.0)), "Hormones"),
    LegacyBiomarker("Estradiol", ["pg/mL"], NormalRange(Some(10.0), Some(50.0)), "Hormones"),
    LegacyBiomarker("Progesterone", ["ng/mL"], NormalRange(Some(0.0), Some(20.0)), "Hormones"),
    LegacyBiomarker("Cortisol", ["\U{03BC}g/dL"], NormalRange(Some(6.0), Some(23.0)), "Hormones"),
    LegacyBiomarker("DHEA-S", ["\U{03BC}g/dL"], NormalRange(Some(35.0), Some(430.0)), "Hormones"),
    LegacyBiomarker("Insulin", ["\U{03BC}IU/mL"], NormalRange(Some(2.6), Some(24.9)), "Hormones"),
    LegacyBiomarker("C-Peptide", ["ng/mL"], NormalRange(Some(0.8), Some(3.1)), "Hormones"),
    LegacyBiomarker("IGF-1 (Insulin-like Growth Factor)", ["ng/mL"], NormalRange(Some(115.0), Some(307.0)), "Hormones"),
    LegacyBiomarker("Growth Hormone", ["ng/mL"], NormalRange(Some(0.0), Some(5.0)), "Hormones"),
    LegacyBiomarker("Prolactin", ["ng/mL"], NormalRange(Some(2.0), Some(18.0)), "Hormones"),
    LegacyBiomarker("FSH (Follicle Stimulating Hormone)", ["mIU/mL"], NormalRange(Some(1.5), Some(12.4)), "Hormones"),
    LegacyBiomarker("LH (Luteinizing Hormone)", ["mIU/mL"], NormalRange(Some(1.7), Some(8.6)), "Hormones")
  ]

  /** Cardiac Markers. */
  const CARDIAC: seq<LegacyBiomarker> := [
    LegacyBiomarker("Troponin I", ["ng/mL"], NormalRange(Some(0.0), Some(0.04)), "Cardiac"),
    LegacyBiomarker("Troponin T", ["ng/mL"], NormalRange(Some(0.0), Some(0.01)), "Cardiac"),
    LegacyBiomarker("BNP (B-type Natriuretic Peptide)", ["pg/mL"], NormalRange(Some(0.0), Some(100.0)), "Cardiac"),
    LegacyBiomarker("NT-proBNP", ["pg/mL"], NormalRange(Some(0.0), Some(125.0)), "Cardiac"),
    LegacyBiomarker("CK (Creatine Kinase)", ["U/L"], NormalRange(Some(38.0), Some(174.0)), "Cardiac"),
    LegacyBiomarker("CK-MB", ["U/L"], NormalRange(Some(0.0), Some(5.0)), "Cardiac"),
    LegacyBiomarker("Homocysteine", ["\U{03BC}mol/L"], NormalRange(Some(5.0), Some(15.0)), "Cardiac")
  ]

  /** Inflammation Markers. */
  const INFLAMMATION: seq<LegacyBiomarker> := [
    LegacyBiomarker("C-Reactive Protein (CRP)", ["mg/L"], NormalRange(Some(0.0), Some(3.0)), "Inflammation"),
    LegacyBiomarker("High-Sensitivity CRP (hs-CRP)", ["mg/L"], NormalRange(Some(0.0), Some(3.0)), "Inflammation"),
    LegacyBiomarker("Erythrocyte Sedimentation Rate (ESR)", ["mm/hr"], NormalRange(Some(0.0), Some(20.0)), "Inflammation")
  ]

  /** Coagulation. */
  const COAGULATION: seq<LegacyBiomarker> := [
    LegacyBiomarker("PT (Prothrombin Time)", ["seconds"], NormalRange(Some(11.0), Some(13.5)), "Coagulation"),
    LegacyBiomarker("INR", ["ratio"], NormalRange(Some(0.8), Some(1.1)), "Coagulation"),
    LegacyBiomarker("PTT (Partial Thromboplastin Time)", ["seconds"], NormalRange(Some(25.0), Some(35.0)), "Coagulation"),
    LegacyBiomarker("Fibrinogen", ["mg/dL"], NormalRange(Some(200.0), Some(400.0)), "Coagulation"),
    LegacyBiomarker("D-Dimer", ["ng/mL"], NormalRange(Some(0.0), Some(500.0)), "Coagulation")
  ]

  /** Urinalysis. */
  const URINALYSIS: seq<LegacyBiomarker> := [
    LegacyBiomarker("Urine pH", ["pH"], NormalRange(Some(4.5), Some(8.0)), "Urinalysis"),
    LegacyBiomarker("Urine Specific Gravity", ["SG"], NormalRange(Some(1.005), Some(1.030)), "Urinalysis"),
    LegacyBiomarker("Urine Protein", ["mg/dL"], NormalRange(Some(0.0), Some(14.0)), "Urinalysis"),
    LegacyBiomarker("Urine Glucose", ["mg/dL"], NormalRange(Some(0.0), Some(15.0)), "Urinalysis"),
    LegacyBiomarker("Urine Ketones", ["mg/dL"], NormalRange(Some(0.0), Some(0.0)), "Urinalysis"),
    LegacyBiomarker("Microalbumin/Creatinine Ratio", ["mg/g"], NormalRange(Some(0.0), Some(30.0)), "Urinalysis"),
    LegacyBiomarker("Protein/Creatinine Ratio, Urine", ["mg/g"], NormalRange(Some(0.0), Some(200.0)), "Urinalysis")
  ]

  /** Tumor Markers. */
  const TUMOR: seq<LegacyBiomarker> := [
    LegacyBiomarker("PSA (Prostate Specific Antigen)", ["ng/mL"], NormalRange(Some(0.0), Some(4.0)), "Tumor Markers"),
    LegacyBiomarker("CEA (Carcinoembryonic Antigen)", ["ng/mL"], NormalRange(Some(0.0), Some(3.0)), "Tumor Markers"),
    LegacyBiomarker("CA 19-9", ["U/mL"], NormalRange(Some(0.0), Some(37.0)), "Tumor Markers"),
    LegacyBiomarker("CA 125", ["U/mL"], NormalRange(Some(0.0), Some(35.0)), "Tumor Markers"),
    LegacyBiomarker("AFP (Alpha-Fetoprotein)", ["ng/mL"], NormalRange(Some(0.0), Some(10.0)), "Tumor Markers")
  ]

  /** Other Important Biomarkers. */
  const OTHER: seq<LegacyBiomarker> := [
    LegacyBiomarker("Uric Acid", ["mg/dL"], NormalRange(Some(3.5), Some(7.2)), "Metabolic"),
    LegacyBiomarker("Lactate", ["mmol/L"], NormalRange(Some(0.5), Some(2.2)), "Metabolic"),
    LegacyBiomarker("Ammonia", ["\U{03BC}mol/L"], NormalRange(Some(15.0), Some(45.0)), "Metabolic"),
    LegacyBiomarker("Amylase", ["U/L"], NormalRange(Some(30.0), Some(110.0)), "Pancreatic"),
    LegacyBiomarker("Lipase", ["U/L"], NormalRange(Some(0.0), Some(160.0)), "Pancreatic"),
    LegacyBiomarker("GGT (Gamma-Glutamyl Transferase)", ["U/L"], NormalRange(Some(0.0), Some(51.0)), "Liver Function"),
    LegacyBiomarker("LDH (Lactate Dehydrogenase)", ["U/L"], NormalRange(Some(122.0), Some(222.0)), "General")
  ]

  /** Additional Specialized Markers. */
  const SPECIALIZED: seq<LegacyBiomarker> := [
    LegacyBiomarker("Chromogranin A", ["ng/mL"], NormalRange(Some(0.0), Some(95.0)), "Tumor Markers"),
    LegacyBiomarker("Beta-2 Microglobulin", ["mg/L"], NormalRange(Some(0.7), Some(1.8)), "Kidney Function"),
    LegacyBiomarker("Cystatin C", ["mg/L"], NormalRange(Some(0.53), Some(0.95)), "Kidney Function"),
    LegacyBiomarker("eGFR (Estimated GFR)", ["mL/min/1.73m\U{00B2}"], NormalRange(Some(90.0), Some(120.0)), "Kidney Function"),
    LegacyBiomarker("Reticulocyte Count", ["%"], NormalRange(Some(0.5), Some(2.0)), "Hematology"),
    LegacyBiomarker("Immature Platelet Fraction", ["%"], NormalRange(Some(1.1), Some(6.1)), "Hematology"),
    LegacyBiomarker("Osmolality, Serum", ["mOsm/kg"], NormalRange(Some(275.0), Some(295.0)), "Electrolytes"),
    LegacyBiomarker("Osmolality, Urine", ["mOsm/kg"], NormalRange(Some(300.0), Some(900.0)), "Urinalysis"),
    LegacyBiomarker("Anion Gap", ["mEq/L"], NormalRange(Some(8.0), Some(16.0)), "Electrolytes")
  ]

  /** Heavy Metals. */
  const HEAVY_METALS: seq<LegacyBiomarker> := [
    LegacyBiomarker("Lead", ["\U{03BC}g/dL"], NormalRange(Some(0.0), Some(5.0)), "Heavy Metals"),
    LegacyBiomarker("Mercury", ["\U{03BC}g/L"], NormalRange(Some(0.0), Some(10.0)), "Heavy Metals"),
    LegacyBiomarker("Cadmium", ["\U{03BC}g/L"], NormalRange(Some(0.0), Some(5.0)), "Heavy Metals"),
    LegacyBiomarker("Arsenic", ["\U{03BC}g/L"], NormalRange(Some(0.0), Some(10.0)), "Heavy Metals")
  ]

  /** Autoimmune Markers. */
  const AUTOIMMUNE: seq<LegacyBiomarker> := [
    LegacyBiomarker("ANA (Antinuclear Antibody)", ["titer"], NormalRange(Some(0.0), Some(0.0)), "Autoimmune"),
    LegacyBiomarker("Anti-dsDNA", ["IU/mL"], NormalRange(Some(0.0), Some(9.0)), "Autoimmune"),
    LegacyBiomarker("Rheumatoid Factor", ["IU/mL"], NormalRange(Some(0.0), Some(14.0)), "Autoimmune"),
    LegacyBiomarker("Anti-CCP", ["U/mL"], NormalRange(Some(0.0), Some(20.0)), "Autoimmune")
  ]

  /** Additional Urine Ratios and Specialized Tests. */
  const URINE_RATIOS: seq<LegacyBiomarker> := [
    LegacyBiomarker("Calcium/Creatinine Ratio, Urine", ["mg/mg"], NormalRange(Some(0.0), Some(0.2)), "Urinalysis"),
    LegacyBiomarker("Oxalate/Creatinine Ratio, Urine", ["mg/g"], NormalRange(Some(0.0), Some(40.0)), "Urinalysis"),
    LegacyBiomarker("Citrate/Creatinine Ratio, Urine", ["mg/g"], NormalRange(Some(250.0), Some(1200.0)), "Urinalysis"),
    LegacyBiomarker("Uric Acid/Creatinine Ratio, Urine", ["mg/g"], NormalRange(Some(0.0), Some(750.0)), "Urinalysis"),
    LegacyBiomarker("Zn/Creat, urine", ["\U{03BC}g/g"], NormalRange(Some(100.0), Some(600.0)), "Urinalysis"),
    LegacyBiomarker("Zr/Creat, urine", ["\U{03BC}g/g"], NormalRange(Some(0.0), Some(5.0)), "Urinalysis")
  ]

  /** The table in declaration order, before the sort. */
  const RAW: seq<LegacyBiomarker> :=
    VITAL_SIGNS + BLOOD_GLUCOSE + BLOOD_COUNT + METABOLIC_PANEL + LIPID_PANEL + THYROID +
    VITAMINS_MINERALS + HORMONES + CARDIAC + INFLAMMATION + COAGULATION + URINALYSIS + TUMOR +
    OTHER + SPECIALIZED + HEAVY_METALS + AUTOIMMUNE + URINE_RATIOS

  /** The table holds 127 entries. */
  lemma RawSize()
    ensures |RAW| == 127
  {
  }

  /** An entry has units; where both bounds are given they are ordered; only Weight lacks a
      bound. */
  ghost predicate EntryOk(b: LegacyBiomarker) {
    && |b.units| > 0
    && (b.normalRange.min.Some? && b.normalRange.max.Some? ==> b.normalRange.min.value <= b.normalRange.max.value)
    && (b.normalRange.min.None? || b.normalRange.max.None? ==> b.name == "Weight")
  }

  ghost predicate AllEntriesOk(s: seq<LegacyBiomarker>) {
    forall i :: 0 <= i < |s| ==> EntryOk(s[i])
  }

  lemma AllEntriesOkConcat(a: seq<LegacyBiomarker>, b: seq<LegacyBiomarker>)
    requires AllEntriesOk(a) && AllEntriesOk(b)
    ensures AllEntriesOk(a + b)
  {
    forall i | 0 <= i < |a + b| ensures EntryOk((a + b)[i]) {
      if i >= |a| {
        assert (a + b)[i] == b[i - |a|];
      }
    }
  }

  // Each section of the table is well formed.

  lemma VitalSignsOk()
    ensures AllEntriesOk(VITAL_SIGNS)
  {
  }

  lemma BloodGlucoseOk()
    ensures AllEntriesOk(BLOOD_GLUCOSE)
  {
  }

  lemma BloodCountOk()
    ensures AllEntriesOk(BLOOD_COUNT)
  {
  }

  lemma MetabolicPanelOk()
    ensures AllEntriesOk(METABOLIC_PANEL)
  {
  }

  lemma LipidPanelOk()
    ensures AllEntriesOk(LIPID_PANEL)
  {
  }

  lemma ThyroidOk()
    ensures AllEntriesOk(THYROID)
  {
  }

  lemma VitaminsMineralsOk()
    ensures AllEntriesOk(VITAMINS_MINERALS)
  {
  }

  lemma HormonesOk()
    ensures AllEntriesOk(HORMONES)
  {
  }

  lemma CardiacOk()
    ensures AllEntriesOk(CARDIAC)
  {
  }

  lemma InflammationOk()
    ensures AllEntriesOk(INFLAMMATION)
  {
  }

  lemma CoagulationOk()
    ensures AllEntriesOk(COAGULATION)
  {
  }

  lemma UrinalysisOk()
    ensures AllEntriesOk(URINALYSIS)
  {
  }

  lemma TumorOk()
    ensures AllEntriesOk(TUMOR)
  {
  }

  lemma OtherOk()
    ensures AllEntriesOk(OTHER)
  {
  }

  lemma SpecializedOk()
    ensures AllEntriesOk(SPECIALIZED)
  {
  }

  lemma HeavyMetalsOk()
    ensures AllEntriesOk(HEAVY_METALS)
  {
  }

  lemma AutoimmuneOk()
    ensures AllEntriesOk(AUTOIMMUNE)
  {
  }

  lemma UrineRatiosOk()
    ensures AllEntriesOk(URINE_RATIOS)
  {
  }

  /** Every entry of the table is well formed. */
  lemma RawEntriesOk()
    ensures AllEntriesOk(RAW)
  {
    var acc := VITAL_SIGNS;
    VitalSignsOk();
    BloodGlucoseOk();
    AllEntriesOkConcat(acc, BLOOD_GLUCOSE);
    acc := acc + BLOOD_GLUCOSE;
    BloodCountOk();
    AllEntriesOkConcat(acc, BLOOD_COUNT);
    acc := acc + BLOOD_COUNT;
    MetabolicPanelOk();
    AllEntriesOkConcat(acc, METABOLIC_PANEL);
    acc := acc + METABOLIC_PANEL;
    LipidPanelOk();
    AllEntriesOkConcat(acc, LIPID_PANEL);
    acc := acc + LIPID_PANEL;
    ThyroidOk();
    AllEntriesOkConcat(acc, THYROID);
    acc := acc + THYROID;
    VitaminsMineralsOk();
    AllEntriesOkConcat(acc, VITAMINS_MINERALS);
    acc := acc + VITAMINS_MINERALS;
    HormonesOk();
    AllEntriesOkConcat(acc, HORMONES);
    acc := acc + HORMONES;
    CardiacOk();
    AllEntriesOkConcat(acc, CARDIAC);
    acc := acc + CARDIAC;
    InflammationOk();
    AllEntriesOkConcat(acc, INFLAMMATION);
    acc := acc + INFLAMMATION;
    CoagulationOk();
    AllEntriesOkConcat(acc, COAGULATION);
    acc := acc + COAGULATION;
    UrinalysisOk();
    AllEntriesOkConcat(acc, URINALYSIS);
    acc := acc + URINALYSIS;
    TumorOk();
    AllEntriesOkConcat(acc, TUMOR);
    acc := acc + TUMOR;
    OtherOk();
    AllEntriesOkConcat(acc, OTHER);
    acc := acc + OTHER;
    SpecializedOk();
    AllEntriesOkConcat(acc, SPECIALIZED);
    acc := acc + SPECIALIZED;
    HeavyMetalsOk();
    AllEntriesOkConcat(acc, HEAVY_METALS);
    acc := acc + HEAVY_METALS;
    AutoimmuneOk();
    AllEntriesOkConcat(acc, AUTOIMMUNE);
    acc := acc + AUTOIMMUNE;
    UrineRatiosOk();
    AllEntriesOkConcat(acc, URINE_RATIOS);
    acc := acc + URINE_RATIOS;
  }

  /** Weight, the first entry, has neither bound. */
  lemma WeightHasNoBounds()
    ensures RAW[0].name == "Weight" && RAW[0].normalRange == NormalRange(None, None)
  {
  }

  /** The comparator `a.name.localeCompare(b.name) <= 0`, given locale order `localeLe`. */
  function ByName(localeLe: (string, string) -> bool): (le: (LegacyBiomarker, LegacyBiomarker) -> bool)
    ensures forall a, b :: le(a, b) == localeLe(a.name, b.name)
  {
    (a: LegacyBiomarker, b: LegacyBiomarker) => localeLe(a.name, b.name)
  }

  /** A table stably sorted by name in the locale's order. */
  function SortByName(catalog: seq<LegacyBiomarker>, localeLe: (string, string) -> bool): (r: seq<LegacyBiomarker>)
    ensures |r| == |catalog|
  {
    SortBy(catalog, ByName(localeLe))
  }

  /** `BIOMARKERS`: the whole table sorted by name. */
  function Biomarkers(localeLe: (string, string) -> bool): seq<LegacyBiomarker> {
    SortByName(RAW, localeLe)
  }

  /** The app's `BIOMARKERS` is in name order, holds the declared entries, and every entry is
      well formed. */
  lemma BiomarkersSorted(localeLe: (string, string) -> bool)
    requires TotalPreorder(localeLe)
    ensures var r := Biomarkers(localeLe);
            && (forall i, j :: 0 <= i < j < |r| ==> localeLe(r[i].name, r[j].name))
            && multiset(r) == multiset(RAW)
            && AllEntriesOk(r)
  {
    RawEntriesOk();
    SortedByNameIsSorted(RAW, localeLe);
  }

  /** Ordering entries by name inherits a total preorder from the name order. */
  lemma ByNameTotalPreorder(localeLe: (string, string) -> bool)
    requires TotalPreorder(localeLe)
    ensures TotalPreorder(ByName(localeLe))
  {
    var le := ByName(localeLe);
    forall a: LegacyBiomarker, b: LegacyBiomarker ensures le(a, b) || le(b, a) {
      assert localeLe(a.name, b.name) || localeLe(b.name, a.name);
    }
    forall a: LegacyBiomarker, b: LegacyBiomarker, c: LegacyBiomarker | le(a, b) && le(b, c) ensures le(a, c) {
      assert localeLe(a.name, b.name) && localeLe(b.name, c.name);
    }
  }

  /** Sorting any table by name orders it by name, holds the same entries, and keeps every entry
      well formed. */
  lemma {:induction false} SortedByNameIsSorted(catalog: seq<LegacyBiomarker>, localeLe: (string, string) -> bool)
    requires TotalPreorder(localeLe)
    requires AllEntriesOk(catalog)
    ensures var r := SortByName(catalog, localeLe);
            && (forall i, j :: 0 <= i < j < |r| ==> localeLe(r[i].name, r[j].name))
            && multiset(r) == multiset(catalog)
            && AllEntriesOk(r)
  {
    var r := SortByName(catalog, localeLe);
    ByNameTotalPreorder(localeLe);
    SortByIsSorted(catalog, ByName(localeLe));
    forall i | 0 <= i < |r| ensures EntryOk(r[i]) {
      assert r[i] in multiset(catalog);
    }
    forall i, j | 0 <= i < j < |r| ensures localeLe(r[i].name, r[j].name) {
      assert ByName(localeLe)(r[i], r[j]);
    }
  }

  /** Some entry of the table has category `c`. */
  ghost predicate UsesCategory(catalog: seq<LegacyBiomarker>, c: string) {
    exists k :: 0 <= k < |catalog| && catalog[k].category == c
  }

  /** The category of every entry, in table order. */
  function CategoryList(catalog: seq<LegacyBiomarker>): (r: seq<string>)
    ensures |r| == |catalog| && forall k :: 0 <= k < |catalog| ==> r[k] == catalog[k].category
  {
    Map(catalog, (b: LegacyBiomarker) => b.category)
  }

  /** `CATEGORIES` of a table: its distinct categories, sorted by code unit. */
  function Categories(catalog: seq<LegacyBiomarker>): (r: seq<string>)
    ensures |r| <= |catalog|
  {
    SortedSet(CategoryList(catalog))
  }

  /** The categories are sorted, each listed once, and are exactly the categories some entry
      has. */
  lemma CategoriesSortedDistinct(catalog: seq<LegacyBiomarker>)
    ensures var r := Categories(catalog);
            && SortedBy(r, CodeUnitLe)
            && NoDuplicates(r)
            && forall c :: c in r <==> UsesCategory(catalog, c)
  {
    var cats := CategoryList(catalog);
    SortedSetSpec(cats);
    forall c ensures c in cats <==> UsesCategory(catalog, c) {
      if c in cats {
        var k :| 0 <= k < |cats| && cats[k] == c;
      }
      if UsesCategory(catalog, c) {
        var k :| 0 <= k < |catalog| && catalog[k].category == c;
        assert cats[k] == c;
      }
    }
  }

  /** The category list is the only sorted, duplicate-free list of the categories in use. */
  lemma CategoriesUnique(catalog: seq<LegacyBiomarker>, other: seq<string>)
    requires SortedBy(other, CodeUnitLe) && NoDuplicates(other)
    requires forall c :: c in other <==> UsesCategory(catalog, c)
    ensures other == Categories(catalog)
  {
    CategoriesSortedDistinct(catalog);
    SortedSetUnique(CategoryList(catalog), other);
  }

  /** The categories do not depend on the order of the table. */
  lemma CategoriesPermutation(a: seq<LegacyBiomarker>, b: seq<LegacyBiomarker>)
    requires multiset(a) == multiset(b)
    ensures Categories(a) == Categories(b)
  {
    CategoriesSortedDistinct(a);
    forall c ensures UsesCategory(a, c) <==> UsesCategory(b, c) {
      if UsesCategory(a, c) {
        var k :| 0 <= k < |a| && a[k].category == c;
        assert a[k] in multiset(b);
      }
      if UsesCategory(b, c) {
        var k :| 0 <= k < |b| && b[k].category == c;
        assert b[k] in multiset(a);
      }
    }
    CategoriesUnique(b, Categories(a));
  }

  /** `CATEGORIES` is computed from the sorted table; sorting first changes nothing. */
  lemma CategoriesOfSorted(localeLe: (string, string) -> bool)
    ensures Categories(Biomarkers(localeLe)) == Categories(RAW)
  {
    CategoriesPermutation(Biomarkers(localeLe), RAW);
  }
}
