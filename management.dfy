/**
 * Clinical follow-up records (clients/models/management.py): complications, vaccinations,
 * investigations, growth, admissions with their transfusions, and clinic visits. Every record
 * but Transfusion belongs to a Client (NOT NULL, ON DELETE CASCADE); a Transfusion belongs to an
 * Admission and reaches its client only through it. Decimals are held scaled: one place in
 * tenths, two places in hundredths.
 */
module Management {
  import opened Wrappers
  import opened Calendar
  import Tables
  import Lookup

  datatype ComplicationType = ComplicationType(name: string, description: Option<string>)

  /** `complication` (SET NULL) is required by validation; `status` is a complication_status Choice, also required. */
  datatype Complication = Complication(
    client: int,
    complication: Option<int>,
    detectedDate: Date,
    status: Option<int>,
    remarks: Option<string>)

  datatype Vaccination = Vaccination(
    client: int,
    vaccineName: Option<int>,
    dateGiven: Date,
    nextDoseDate: Option<Date>)

  datatype InvestigationType = InvestigationType(name: string, description: Option<string>, unit: Option<string>)

  /** `investigationType` is `blank=True`: an investigation may have no type. */
  datatype Investigation = Investigation(
    client: int,
    dateDone: Date,
    investigationType: Option<int>,
    value: Option<string>,
    unit: Option<string>,
    laboratoryName: Option<string>)

  /** `growthType` is the source's `type` column; `value` and `percentile` are in hundredths. */
  datatype GrowthRecord = GrowthRecord(
    client: int,
    dateMeasured: Date,
    growthType: Option<int>,
    value: int,
    percentile: Option<int>)

  datatype Admission = Admission(
    client: int,
    dateOfAdmission: Date,
    reasonForAdmission: string,
    dateOfDischarge: Option<Date>,
    outcome: Option<string>)

  /**
   * A transfusion given during an admission. Haemoglobin levels and counts are in tenths, the
   * amount of blood in hundredths; `specialType` is a special_blood_type Choice that may be blank.
   */
  datatype Transfusion = Transfusion(
    admission: int,
    dateOfTransfusion: Date,
    hbLevelToBeKept: Option<int>,
    hbLevel: Option<int>,
    wbcCount: Option<int>,
    plateletCount: Option<int>,
    amountOfBlood: Option<int>,
    specialType: Option<int>,
    nextDateGiven: Option<Date>,
    reaction: Option<string>,
    checkedBy: Option<string>,
    remarks: Option<string>)

  datatype ClinicVisit = ClinicVisit(
    client: int,
    dateVisit: Date,
    problem: Option<string>,
    clinicType: Option<int>,
    action: Option<string>,
    referral: Option<string>,
    nextVisitDate: Option<Date>,
    doctorName: Option<string>,
    followUpNeeded: bool)

  // ---------------------------------------------------------------- validation

  predicate ValidComplicationType(t: ComplicationType) { t.name != "" }
  predicate ValidInvestigationType(t: InvestigationType) { t.name != "" }

  /*
   * In each validation predicate below, `clients` (for a transfusion, `admissions`) and the other
   * id sets are the keys of the tables the row's foreign keys point into: a reference must name
   * a row on record, and a Choice reference one of the category its field admits.
   */

  predicate ValidComplication(c: Complication, clients: set<int>, types: set<int>, choices: map<int, Lookup.Choice>) {
    && c.client in clients
    && c.complication.Some? && c.complication.value in types
    && Lookup.ScopedChoice(c.status, choices, Lookup.ComplicationStatus, false)
  }

  predicate ValidVaccination(v: Vaccination, clients: set<int>, choices: map<int, Lookup.Choice>) {
    v.client in clients && Lookup.ScopedChoice(v.vaccineName, choices, Lookup.VaccineName, false)
  }

  predicate ValidInvestigation(i: Investigation, clients: set<int>, types: set<int>) {
    i.client in clients && Tables.RefOk(i.investigationType, types)
  }

  predicate ValidGrowthRecord(g: GrowthRecord, clients: set<int>, choices: map<int, Lookup.Choice>) {
    g.client in clients && Lookup.ScopedChoice(g.growthType, choices, Lookup.Growth, false)
  }

  predicate ValidAdmission(a: Admission, clients: set<int>) {
    a.client in clients && a.reasonForAdmission != ""
  }

  predicate ValidTransfusion(t: Transfusion, admissions: set<int>, choices: map<int, Lookup.Choice>) {
    t.admission in admissions && Lookup.ScopedChoice(t.specialType, choices, Lookup.SpecialBloodType, true)
  }

  predicate ValidClinicVisit(v: ClinicVisit, clients: set<int>, choices: map<int, Lookup.Choice>) {
    v.client in clients && Lookup.ScopedChoice(v.clinicType, choices, Lookup.ClinicType, false)
  }

  /**
   * Of the Choice references only a transfusion's special type may be left empty; the status of
   * a complication, the vaccine, the growth type and the clinic type are nullable in storage but
   * required by validation. An investigation may likewise leave its type empty.
   */
  lemma ChoiceReferencesRequired(
    c: Complication, v: Vaccination, i: Investigation, g: GrowthRecord, t: Transfusion, visit: ClinicVisit,
    clients: set<int>, admissions: set<int>, types: set<int>, choices: map<int, Lookup.Choice>)
    ensures c.status.None? ==> !ValidComplication(c, clients, types, choices)
    ensures v.vaccineName.None? ==> !ValidVaccination(v, clients, choices)
    ensures g.growthType.None? ==> !ValidGrowthRecord(g, clients, choices)
    ensures visit.clinicType.None? ==> !ValidClinicVisit(visit, clients, choices)
    ensures t.specialType.None? ==> (ValidTransfusion(t, admissions, choices) <==> t.admission in admissions)
    ensures i.investigationType.None? ==> (ValidInvestigation(i, clients, types) <==> i.client in clients)
  {
  }

  /** A vaccine reference to a Choice of another category (a clinic type, say) fails validation. */
  lemma WrongCategoryRejected(v: Vaccination, clients: set<int>, choices: map<int, Lookup.Choice>)
    requires v.vaccineName.Some? && v.vaccineName.value in choices
    requires choices[v.vaccineName.value].category != Lookup.VaccineName
    ensures !ValidVaccination(v, clients, choices)
  {
  }

  // ---------------------------------------------------------------- rows with their defaults

  /** An admission created with only its client and date: the reason defaults to "Blood Transfusion". */
  function NewAdmission(client: int, dateOfAdmission: Date): (a: Admission)
    ensures a.client == client && a.dateOfAdmission == dateOfAdmission
    ensures a.reasonForAdmission == "Blood Transfusion"
    ensures forall clients :: ValidAdmission(a, clients) <==> client in clients
    ensures a.dateOfDischarge.None? && a.outcome.None?
  {
    Admission(client, dateOfAdmission, "Blood Transfusion", None, None)
  }

  /**
   * A transfusion created with only its admission and date: the level to keep is 9.0, the
   * reaction "None"; it passes validation as soon as its admission is on record.
   */
  function NewTransfusion(admission: int, dateOfTransfusion: Date): (t: Transfusion)
    ensures t.admission == admission && t.dateOfTransfusion == dateOfTransfusion
    ensures t.hbLevelToBeKept == Some(90) && t.reaction == Some("None")
    ensures t.specialType.None?
    ensures forall admissions, choices :: ValidTransfusion(t, admissions, choices) <==> admission in admissions
  {
    Transfusion(admission, dateOfTransfusion, Some(90), None, None, None, None, None, None, Some("None"), None, None)
  }

  /**
   * A clinic visit created with only its client and date: no follow-up needed; it still lacks
   * the clinic type validation asks for.
   */
  function NewClinicVisit(client: int, dateVisit: Date): (v: ClinicVisit)
    ensures v.client == client && v.dateVisit == dateVisit
    ensures !v.followUpNeeded && v.clinicType.None?
    ensures forall clients, choices :: !ValidClinicVisit(v, clients, choices)
  {
    ClinicVisit(client, dateVisit, None, None, None, None, None, None, false)
  }
}
