/**
 * The patient record and its satellites (clients/models/client.py): Client, ClientDeath,
 * ClientTransfer and FamilyMember, with their validation rules, the derived `age` and the
 * display label.
 */
module Clients {
  import opened Wrappers
  import opened Calendar
  import Tables
  import Lookup
  import Ordering

  const Genders: set<string> := {"M", "F"}
  const BloodGroups: set<string> := {"A+", "A-", "B+", "B-", "AB+", "AB-", "O+", "O-"}
  const Ethnicities: set<string> := {"Sinhalese", "Tamil", "SriLankanMoor", "Burger", "Other"}
  const Relationships: set<string> := {"Father", "Mother", "Sibling", "Other"}

  /**
   * A registered patient. `registrationNumber` and `nicNumber` are UNIQUE columns; `unit`,
   * `diagnosis`, `maritalStatus` and `dsDivision` are nullable foreign keys with ON DELETE SET NULL.
   * `hbLevelAtDiagnosis` is a decimal with one place, held in tenths.
   */
  datatype Client = Client(
    fullName: string,
    commonName: Option<string>,
    gender: string,
    ethnicity: Option<string>,
    dateOfBirth: Option<Date>,
    bloodGroup: Option<string>,
    nicNumber: Option<string>,
    registrationNumber: string,
    dateOfRegistration: Option<Date>,
    unit: Option<int>,
    diagnosis: Option<int>,
    maritalStatus: Option<int>,
    occupation: Option<string>,
    address: Option<string>,
    dsDivision: Option<int>,
    contactNumber: Option<string>,
    email: Option<string>,
    photo: Option<string>,
    guardianName1: Option<string>,
    guardianName2: Option<string>,
    guardianContactNumber1: Option<string>,
    guardianContactNumber2: Option<string>,
    diagnosisDate: Option<Date>,
    hbLevelAtDiagnosis: Option<int>,
    dateFirstTransfused: Option<Date>,
    dateIronChelationStarted: Option<Date>,
    transfusionRegimen: Option<string>,
    allergicHistory: Option<string>,
    specialNote: Option<string>)

  /**
   * The row `Client.objects.create(registration_number=..., full_name=...)` writes: every other
   * field takes its declared default (`gender` the empty string, `ethnicity` "Sinhalese") or NULL.
   */
  function NewClient(registrationNumber: string, fullName: string): (c: Client)
    ensures c.registrationNumber == registrationNumber && c.fullName == fullName
    ensures c.unit == c.diagnosis == c.maritalStatus == c.dsDivision == None
    ensures forall units, diagnoses, choices, divisions :: !ValidClient(c, units, diagnoses, choices, divisions)
  {
    Client(fullName, None, "", Some("Sinhalese"), None, None, None, registrationNumber, None,
           None, None, None, None, None, None, None, None, None, None, None, None, None,
           None, None, None, None, None, None, None)
  }

  /** A nullable text field left empty: NULL or the empty string. */
  predicate Blank(v: Option<string>) {
    v.None? || v.value == ""
  }

  /** A `blank=True` field declared with `choices`: empty, or one of the choices. */
  predicate BlankOrOneOf(v: Option<string>, allowed: set<string>) {
    Blank(v) || v.value in allowed
  }

  /**
   * Model validation of a Client (`full_clean`): the fields
   * without `blank=True` must be filled, fields with `choices` must hold one of them, a set
   * foreign key must name a row on record (`units`, `diagnoses` and `divisions` are the ids of
   * the referenced tables), and the marital status must be a Choice of the "marital_status"
   * category.
   */
  predicate ValidClient(c: Client, units: set<int>, diagnoses: set<int>, choices: map<int, Lookup.Choice>,
                        divisions: set<int>) {
    && c.fullName != ""
    && c.gender in Genders
    && c.registrationNumber != ""
    && BlankOrOneOf(c.ethnicity, Ethnicities)
    && BlankOrOneOf(c.bloodGroup, BloodGroups)
    && Tables.RefOk(c.unit, units)
    && Tables.RefOk(c.diagnosis, diagnoses)
    && Lookup.ScopedChoice(c.maritalStatus, choices, Lookup.MaritalStatus, true)
    && Tables.RefOk(c.dsDivision, divisions)
  }

  /** The Client fields model validation can reject, one per key of its error dictionary. */
  datatype ClientField =
    | FullName | Gender | RegistrationNumber | Ethnicity | BloodGroup
    | Unit | Diagnosis | MaritalStatus | DsDivision

  /** Whether validation accepts the value of one field of `c`. */
  predicate FieldPasses(c: Client, units: set<int>, diagnoses: set<int>, choices: map<int, Lookup.Choice>,
                        divisions: set<int>, field: ClientField) {
    match field
    case FullName => c.fullName != ""
    case Gender => c.gender in Genders
    case RegistrationNumber => c.registrationNumber != ""
    case Ethnicity => BlankOrOneOf(c.ethnicity, Ethnicities)
    case BloodGroup => BlankOrOneOf(c.bloodGroup, BloodGroups)
    case Unit => Tables.RefOk(c.unit, units)
    case Diagnosis => Tables.RefOk(c.diagnosis, diagnoses)
    case MaritalStatus => Lookup.ScopedChoice(c.maritalStatus, choices, Lookup.MaritalStatus, true)
    case DsDivision => Tables.RefOk(c.dsDivision, divisions)
  }

  /** The fields whose value `full_clean` rejects (the keys of its `ValidationError`). */
  function ClientErrors(c: Client, units: set<int>, diagnoses: set<int>, choices: map<int, Lookup.Choice>,
                        divisions: set<int>): (errors: set<ClientField>)
    ensures errors == {} <==> ValidClient(c, units, diagnoses, choices, divisions)
    ensures FullName in errors <==> c.fullName == ""
    ensures Gender in errors <==> c.gender !in Genders
    ensures RegistrationNumber in errors <==> c.registrationNumber == ""
    ensures Unit in errors <==> !Tables.RefOk(c.unit, units)
    ensures Diagnosis in errors <==> !Tables.RefOk(c.diagnosis, diagnoses)
    ensures DsDivision in errors <==> !Tables.RefOk(c.dsDivision, divisions)
  {
    var errors := set field: ClientField | !FieldPasses(c, units, diagnoses, choices, divisions, field);
    assert errors == {} ==> ValidClient(c, units, diagnoses, choices, divisions) by {
      if errors == {} {
        assert forall field: ClientField :: field !in errors;
        assert FullName !in errors && Gender !in errors && RegistrationNumber !in errors;
        assert Ethnicity !in errors && BloodGroup !in errors && MaritalStatus !in errors;
        assert Unit !in errors && Diagnosis !in errors && DsDivision !in errors;
      }
    }
    errors
  }

  /** Only a Choice of the "marital_status" category, or none, passes as a marital status. */
  lemma MaritalStatusScoped(c: Client, units: set<int>, diagnoses: set<int>, choices: map<int, Lookup.Choice>,
                            divisions: set<int>)
    requires ValidClient(c, units, diagnoses, choices, divisions) && c.maritalStatus.Some?
    ensures c.maritalStatus.value in choices && choices[c.maritalStatus.value].category == Lookup.MaritalStatus
  {
  }

  /**
   * Whole years of life on `asOf` (the `age` property with `date.today()` made a parameter):
   * unknown without a birth date, otherwise the difference of the years, less one while this
   * year's birthday is still ahead.
   */
  function Age(dateOfBirth: Option<Date>, asOf: Date): Option<int> {
    match dateOfBirth
    case None => None
    case Some(dob) =>
      var years := asOf.year - dob.year;
      Some(if MonthDayBefore(asOf.month, asOf.day, dob.month, dob.day) then years - 1 else years)
  }

  /** The `n`-th birthday of someone born on `dob`, as a (possibly non-existent, for 29 February) day. */
  function Anniversary(dob: Date, n: int): Ymd {
    Ymd(dob.year + n, dob.month, dob.day)
  }

  /** The age is the number of the last birthday reached on or before `asOf`, and only that number. */
  lemma AgeIsLastAnniversary(dob: Date, asOf: Date, n: int)
    ensures Age(Some(dob), asOf).Some?
    ensures Age(Some(dob), asOf) == Some(n) <==>
              NotAfter(Anniversary(dob, n), asOf) && !NotAfter(Anniversary(dob, n + 1), asOf)
  {
  }

  lemma AgeUnknownWithoutBirthDate(asOf: Date)
    ensures Age(None, asOf) == None
  {
  }

  /** On a birthday the age is exactly the difference of the years. */
  lemma AgeOnAnniversary(dob: Date, asOf: Date)
    requires asOf.month == dob.month && asOf.day == dob.day
    ensures Age(Some(dob), asOf) == Some(asOf.year - dob.year)
  {
  }

  /** The age never goes down as the reference day moves forward. */
  lemma AgeMonotonic(dob: Date, earlier: Date, later: Date)
    requires NotAfter(earlier, later)
    ensures Age(Some(dob), earlier).value <= Age(Some(dob), later).value
  {
  }

  /** From the day of birth on, the age is never negative. */
  lemma AgeNonNegative(dob: Date, asOf: Date)
    requires NotAfter(dob, asOf)
    ensures Age(Some(dob), asOf).value >= 0
  {
    AgeMonotonic(dob, dob, asOf);
  }

  lemma AgeExamples()
    ensures Age(Some(Ymd(1990, 1, 1)), Ymd(2024, 1, 1)) == Some(34)
    ensures Age(Some(Ymd(1990, 1, 1)), Ymd(2023, 12, 31)) == Some(33)
  {
  }

  /** `str(client)`: the registration number, " : ", then the full name. */
  function Label(c: Client): string {
    c.registrationNumber + " : " + c.fullName
  }

  lemma LabelExample()
    ensures Label(NewClient("T-525", "John Silva")) == "T-525 : John Silva"
  {
  }

  /** In the label of a client whose registration number has no colon, the first colon follows it and a space. */
  lemma FirstColonOfLabel(c: Client)
    requires ':' !in c.registrationNumber
    ensures |Label(c)| > |c.registrationNumber| + 1 && Label(c)[|c.registrationNumber| + 1] == ':'
    ensures forall i :: 0 <= i <= |c.registrationNumber| ==> Label(c)[i] != ':'
  {
    var r := c.registrationNumber;
    forall i | 0 <= i <= |r| ensures Label(c)[i] != ':' {
      if i < |r| { assert Label(c)[i] == r[i]; }
    }
  }

  /**
   * A label names its client: when neither registration number holds a colon, equal labels
   * mean equal registration numbers and equal full names.
   */
  lemma LabelDeterminesClient(c1: Client, c2: Client)
    requires ':' !in c1.registrationNumber && ':' !in c2.registrationNumber
    requires Label(c1) == Label(c2)
    ensures c1.registrationNumber == c2.registrationNumber && c1.fullName == c2.fullName
  {
    var r1, r2, s := c1.registrationNumber, c2.registrationNumber, Label(c1);
    FirstColonOfLabel(c1);
    FirstColonOfLabel(c2);
    assert |r1| == |r2|;
    assert r1 == s[..|r1|] == r2;
    assert c1.fullName == s[|r1| + 3..] == c2.fullName;
  }

  /** Without that condition labels can collide: " : " inside a registration number is ambiguous. */
  lemma LabelsCanCollide()
    ensures NewClient("A : B", "C").registrationNumber != NewClient("A", "B : C").registrationNumber
    ensures Label(NewClient("A : B", "C")) == Label(NewClient("A", "B : C"))
  {
  }

  /** Listing ordered by full name (`Meta.ordering = ["full_name"]`). */
  function ClientsByName(table: map<int, Client>): (rows: seq<(int, Client)>)
    ensures |rows| == |table| && forall k :: k in table ==> (k, table[k]) in rows
    ensures forall i :: 0 <= i < |rows| ==> rows[i].0 in table && table[rows[i].0] == rows[i].1
    ensures forall i, j :: 0 <= i < j < |rows| ==> Ordering.NameLe(rows[i].1.fullName, rows[j].1.fullName)
  {
    Ordering.OrderByName(table, (c: Client) => c.fullName)
  }

  // ---------------------------------------------------------------- satellites

  /** One-to-one with Client (`client` is UNIQUE, NOT NULL, ON DELETE CASCADE). */
  datatype ClientDeath = ClientDeath(
    client: int,
    dateOfDeath: Date,
    causeOfDeath: Option<string>,
    postmortemFindings: Option<string>,
    notes: Option<string>)

  /** Validation of a death record: its client must be on record (`clients` are the client ids). */
  predicate ValidClientDeath(d: ClientDeath, clients: set<int>) {
    d.client in clients
  }

  /**
   * One-to-one with Client. `transferredUnit` is nullable in storage (ON DELETE SET NULL) but,
   * lacking `blank=True`, required by validation.
   */
  datatype ClientTransfer = ClientTransfer(
    client: int,
    transferredUnit: Option<int>,
    dateOfTransfer: Option<Date>,
    reason: Option<string>)

  /** Validation of a transfer: its client and the unit it goes to must both be on record. */
  predicate ValidClientTransfer(t: ClientTransfer, clients: set<int>, units: set<int>) {
    t.client in clients && t.transferredUnit.Some? && t.transferredUnit.value in units
  }

  /**
   * A relative of a patient. `ptId` is free text naming the relative's own registration, not a
   * foreign key: no delete of a Client ever touches it.
   */
  datatype FamilyMember = FamilyMember(
    client: int,
    relationship: string,
    name: string,
    birthDay: Option<Date>,
    diagnosis: Option<int>,
    ptId: Option<string>,
    isCarrier: bool,
    contactNumber: Option<string>)

  /** A family member as created with only its client and name: relationship "Other", not a carrier. */
  function NewFamilyMember(client: int, name: string): (f: FamilyMember)
    ensures f.client == client && f.name == name && f.diagnosis.None? && f.ptId.None?
    ensures f.relationship == "Other" && !f.isCarrier && f.birthDay.None? && f.contactNumber.None?
    ensures forall clients, diagnoses :: ValidFamilyMember(f, clients, diagnoses) <==> client in clients && name != ""
  {
    FamilyMember(client, "Other", name, None, None, None, false, None)
  }

  /** Validation of a family member: a known relationship, a name, and its client and any diagnosis on record. */
  predicate ValidFamilyMember(f: FamilyMember, clients: set<int>, diagnoses: set<int>) {
    f.client in clients && f.relationship in Relationships && f.name != "" && Tables.RefOk(f.diagnosis, diagnoses)
  }
}
