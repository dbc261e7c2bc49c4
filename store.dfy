/**
 * The registry's tables as one value, the constraints the database enforces on every write, and
 * what each delete does to the other tables: the referential actions declared by the
 * `on_delete` arguments of the models. Each delete function gives the state the framework's delete
 * collector leaves behind: the owned rows removed transitively, the SET NULL columns cleared, the
 * row itself gone, all as one step.
 */
module Store {
  import opened Wrappers
  import opened Tables
  import opened Lookup
  import opened Clients
  import opened Drugs
  import opened Management

  datatype Db = Db(
    choices: map<int, Choice>,
    provinces: map<int, Province>,
    districts: map<int, District>,
    dsDivisions: map<int, DsDivision>,
    units: map<int, ThalassemiaUnit>,
    diagnosisTypes: map<int, DiagnosisType>,
    clients: map<int, Client>,
    deaths: map<int, ClientDeath>,
    transfers: map<int, ClientTransfer>,
    familyMembers: map<int, FamilyMember>,
    drugNames: map<int, DrugName>,
    drugs: map<int, Drug>,
    complicationTypes: map<int, ComplicationType>,
    complications: map<int, Complication>,
    vaccinations: map<int, Vaccination>,
    investigationTypes: map<int, InvestigationType>,
    investigations: map<int, Investigation>,
    growthRecords: map<int, GrowthRecord>,
    admissions: map<int, Admission>,
    transfusions: map<int, Transfusion>,
    clinicVisits: map<int, ClinicVisit>)

  const Empty := Db(map[], map[], map[], map[], map[], map[], map[], map[], map[], map[], map[],
                    map[], map[], map[], map[], map[], map[], map[], map[], map[], map[])

  /** Why the store refuses a write. */
  datatype WriteError = UniqueViolation(column: string) | ForeignKeyViolation(column: string)

  // ---------------------------------------------------------------- the invariant

  /** Referential integrity: every foreign key, NOT NULL or nullable-and-set, names an existing row. */
  predicate RefsIntact(db: Db) {
    && RefsIn(db.districts, (d: District) => d.province, db.provinces.Keys)
    && RefsIn(db.dsDivisions, (v: DsDivision) => v.district, db.districts.Keys)
    && NullableRefsIn(db.units, (u: ThalassemiaUnit) => u.dsDivision, db.dsDivisions.Keys)
    && NullableRefsIn(db.clients, (c: Client) => c.unit, db.units.Keys)
    && NullableRefsIn(db.clients, (c: Client) => c.diagnosis, db.diagnosisTypes.Keys)
    && NullableRefsIn(db.clients, (c: Client) => c.maritalStatus, db.choices.Keys)
    && NullableRefsIn(db.clients, (c: Client) => c.dsDivision, db.dsDivisions.Keys)
    && RefsIn(db.deaths, (d: ClientDeath) => d.client, db.clients.Keys)
    && RefsIn(db.transfers, (t: ClientTransfer) => t.client, db.clients.Keys)
    && NullableRefsIn(db.transfers, (t: ClientTransfer) => t.transferredUnit, db.units.Keys)
    && RefsIn(db.familyMembers, (f: FamilyMember) => f.client, db.clients.Keys)
    && NullableRefsIn(db.familyMembers, (f: FamilyMember) => f.diagnosis, db.diagnosisTypes.Keys)
    && RefsIn(db.drugs, (d: Drug) => d.client, db.clients.Keys)
    && NullableRefsIn(db.drugs, (d: Drug) => d.drugName, db.drugNames.Keys)
    && RefsIn(db.complications, (c: Complication) => c.client, db.clients.Keys)
    && NullableRefsIn(db.complications, (c: Complication) => c.complication, db.complicationTypes.Keys)
    && NullableRefsIn(db.complications, (c: Complication) => c.status, db.choices.Keys)
    && RefsIn(db.vaccinations, (v: Vaccination) => v.client, db.clients.Keys)
    && NullableRefsIn(db.vaccinations, (v: Vaccination) => v.vaccineName, db.choices.Keys)
    && RefsIn(db.investigations, (i: Investigation) => i.client, db.clients.Keys)
    && NullableRefsIn(db.investigations, (i: Investigation) => i.investigationType, db.investigationTypes.Keys)
    && RefsIn(db.growthRecords, (g: GrowthRecord) => g.client, db.clients.Keys)
    && NullableRefsIn(db.growthRecords, (g: GrowthRecord) => g.growthType, db.choices.Keys)
    && RefsIn(db.admissions, (a: Admission) => a.client, db.clients.Keys)
    && RefsIn(db.transfusions, (t: Transfusion) => t.admission, db.admissions.Keys)
    && NullableRefsIn(db.transfusions, (t: Transfusion) => t.specialType, db.choices.Keys)
    && RefsIn(db.clinicVisits, (v: ClinicVisit) => v.client, db.clients.Keys)
    && NullableRefsIn(db.clinicVisits, (v: ClinicVisit) => v.clinicType, db.choices.Keys)
  }

  /**
   * The UNIQUE columns: the names of the master lists, a client's registration number and (when
   * set) national identity number, and the client of the one-to-one death and transfer records.
   */
  predicate UniqueColumns(db: Db) {
    && UniqueBy(db.provinces, (p: Province) => p.name)
    && UniqueBy(db.districts, (d: District) => d.name)
    && UniqueBy(db.dsDivisions, (v: DsDivision) => v.name)
    && UniqueBy(db.units, (u: ThalassemiaUnit) => u.name)
    && UniqueBy(db.diagnosisTypes, (t: DiagnosisType) => t.name)
    && UniqueBy(db.clients, (c: Client) => c.registrationNumber)
    && UniqueWhenSet(db.clients, (c: Client) => c.nicNumber)
    && UniqueBy(db.deaths, (d: ClientDeath) => d.client)
    && UniqueBy(db.transfers, (t: ClientTransfer) => t.client)
    && UniqueBy(db.drugNames, (n: DrugName) => n.name)
    && UniqueBy(db.complicationTypes, (t: ComplicationType) => t.name)
    && UniqueBy(db.investigationTypes, (t: InvestigationType) => t.name)
  }

  /** What the database guarantees between any two operations. */
  predicate Consistent(db: Db) {
    RefsIntact(db) && UniqueColumns(db)
  }

  lemma EmptyConsistent()
    ensures Consistent(Empty)
  {
    assert RefsIntact(Empty);
    assert UniqueColumns(Empty);
  }

  // ---------------------------------------------------------------- deletes

  /**
   * Deleting divisions: the treatment units and clients located in them survive with their
   * `ds_division` cleared (SET NULL).
   */
  function RemoveDivisions(db: Db, gone: set<int>): (r: Db)
  {
    db.(dsDivisions := db.dsDivisions - gone,
        units := SetNull(db.units, (u: ThalassemiaUnit) => u.dsDivision,
                         (u: ThalassemiaUnit) => u.(dsDivision := None), gone),
        clients := SetNull(db.clients, (c: Client) => c.dsDivision,
                           (c: Client) => c.(dsDivision := None), gone))
  }

  /**
   * Deleting districts takes their divisions with them (CASCADE); the divisions go first, with
   * their own effects, then the districts.
   */
  function RemoveDistricts(db: Db, gone: set<int>): (r: Db)
  {
    var after := RemoveDivisions(db, Referencing(db.dsDivisions, (v: DsDivision) => v.district, gone));
    after.(districts := after.districts - gone)
  }

  /** Deleting a province takes its districts, and their divisions, with it. */
  function DeleteProvince(db: Db, id: int): (r: Db)
  {
    var after := RemoveDistricts(db, Referencing(db.districts, (d: District) => d.province, {id}));
    after.(provinces := after.provinces - {id})
  }

  function DeleteDistrict(db: Db, id: int): (r: Db)
  {
    RemoveDistricts(db, {id})
  }

  function DeleteDsDivision(db: Db, id: int): (r: Db)
  {
    RemoveDivisions(db, {id})
  }

  lemma RemoveDivisionsConsistent(db: Db, gone: set<int>)
    requires Consistent(db)
    ensures Consistent(RemoveDivisions(db, gone))
  {
    var division := (u: ThalassemiaUnit) => u.dsDivision;
    var clearUnit := (u: ThalassemiaUnit) => u.(dsDivision := None);
    SetNullClears(db.units, division, clearUnit, gone, db.dsDivisions.Keys);
    SetNullKeepsUnique(db.units, division, clearUnit, gone, (u: ThalassemiaUnit) => u.name);
    var located := (c: Client) => c.dsDivision;
    var clearClient := (c: Client) => c.(dsDivision := None);
    SetNullClears(db.clients, located, clearClient, gone, db.dsDivisions.Keys);
    SetNullKeepsRefs(db.clients, located, clearClient, gone, (c: Client) => c.unit, db.units.Keys);
    SetNullKeepsRefs(db.clients, located, clearClient, gone, (c: Client) => c.diagnosis, db.diagnosisTypes.Keys);
    SetNullKeepsRefs(db.clients, located, clearClient, gone, (c: Client) => c.maritalStatus, db.choices.Keys);
    SetNullKeepsUnique(db.clients, located, clearClient, gone, (c: Client) => c.registrationNumber);
    SetNullKeepsUniqueWhenSet(db.clients, located, clearClient, gone, (c: Client) => c.nicNumber);
  }

  lemma RemoveDistrictsConsistent(db: Db, gone: set<int>)
    requires Consistent(db)
    ensures Consistent(RemoveDistricts(db, gone))
  {
    RemoveDivisionsConsistent(db, Referencing(db.dsDivisions, (v: DsDivision) => v.district, gone));
  }

  lemma DeleteProvinceConsistent(db: Db, id: int)
    requires Consistent(db)
    ensures Consistent(DeleteProvince(db, id))
  {
    RemoveDistrictsConsistent(db, Referencing(db.districts, (d: District) => d.province, {id}));
  }

  /** Deleting a treatment unit clears it on its clients and as the destination of transfers. */
  function DeleteThalassemiaUnit(db: Db, id: int): (r: Db)
  {
    db.(units := db.units - {id},
        clients := SetNull(db.clients, (c: Client) => c.unit, (c: Client) => c.(unit := None), {id}),
        transfers := SetNull(db.transfers, (t: ClientTransfer) => t.transferredUnit,
                             (t: ClientTransfer) => t.(transferredUnit := None), {id}))
  }

  /** Deleting a diagnosis type clears it on clients and on family members. */
  function DeleteDiagnosisType(db: Db, id: int): (r: Db)
  {
    db.(diagnosisTypes := db.diagnosisTypes - {id},
        clients := SetNull(db.clients, (c: Client) => c.diagnosis, (c: Client) => c.(diagnosis := None), {id}),
        familyMembers := SetNull(db.familyMembers, (f: FamilyMember) => f.diagnosis,
                                 (f: FamilyMember) => f.(diagnosis := None), {id}))
  }

  /** Deleting a choice clears every reference to it, whichever category the referring field wants. */
  function DeleteChoice(db: Db, id: int): (r: Db)
  {
    db.(choices := db.choices - {id},
        clients := SetNull(db.clients, (c: Client) => c.maritalStatus,
                           (c: Client) => c.(maritalStatus := None), {id}),
        complications := SetNull(db.complications, (c: Complication) => c.status,
                                 (c: Complication) => c.(status := None), {id}),
        vaccinations := SetNull(db.vaccinations, (v: Vaccination) => v.vaccineName,
                                (v: Vaccination) => v.(vaccineName := None), {id}),
        growthRecords := SetNull(db.growthRecords, (g: GrowthRecord) => g.growthType,
                                 (g: GrowthRecord) => g.(growthType := None), {id}),
        transfusions := SetNull(db.transfusions, (t: Transfusion) => t.specialType,
                                (t: Transfusion) => t.(specialType := None), {id}),
        clinicVisits := SetNull(db.clinicVisits, (v: ClinicVisit) => v.clinicType,
                                (v: ClinicVisit) => v.(clinicType := None), {id}))
  }

  /** Deleting a drug name clears it on prescriptions, which keep their own dose and regimen. */
  function DeleteDrugName(db: Db, id: int): (r: Db)
  {
    db.(drugNames := db.drugNames - {id},
        drugs := SetNull(db.drugs, (d: Drug) => d.drugName, (d: Drug) => d.(drugName := None), {id}))
  }

  function DeleteComplicationType(db: Db, id: int): (r: Db)
  {
    db.(complicationTypes := db.complicationTypes - {id},
        complications := SetNull(db.complications, (c: Complication) => c.complication,
                                 (c: Complication) => c.(complication := None), {id}))
  }

  function DeleteInvestigationType(db: Db, id: int): (r: Db)
  {
    db.(investigationTypes := db.investigationTypes - {id},
        investigations := SetNull(db.investigations, (i: Investigation) => i.investigationType,
                                  (i: Investigation) => i.(investigationType := None), {id}))
  }

  /** Deleting admissions takes their transfusions with them (CASCADE). */
  function RemoveAdmissions(db: Db, gone: set<int>): (r: Db)
  {
    db.(transfusions := Cascade(db.transfusions, (t: Transfusion) => t.admission, gone),
        admissions := db.admissions - gone)
  }

  function DeleteAdmission(db: Db, id: int): (r: Db)
  {
    RemoveAdmissions(db, {id})
  }

  /**
   * Deleting a client takes everything it owns: its admissions (and so their transfusions), then
   * its death and transfer records, family members, prescriptions, complications, vaccinations,
   * investigations, growth records and clinic visits, and last the client row.
   */
  function DeleteClient(db: Db, id: int): (r: Db)
  {
    var after := RemoveAdmissions(db, Referencing(db.admissions, (a: Admission) => a.client, {id}));
    after.(deaths := Cascade(after.deaths, (d: ClientDeath) => d.client, {id}),
           transfers := Cascade(after.transfers, (t: ClientTransfer) => t.client, {id}),
           familyMembers := Cascade(after.familyMembers, (f: FamilyMember) => f.client, {id}),
           drugs := Cascade(after.drugs, (d: Drug) => d.client, {id}),
           complications := Cascade(after.complications, (c: Complication) => c.client, {id}),
           vaccinations := Cascade(after.vaccinations, (v: Vaccination) => v.client, {id}),
           investigations := Cascade(after.investigations, (i: Investigation) => i.client, {id}),
           growthRecords := Cascade(after.growthRecords, (g: GrowthRecord) => g.client, {id}),
           clinicVisits := Cascade(after.clinicVisits, (v: ClinicVisit) => v.client, {id}),
           clients := after.clients - {id})
  }

  lemma DeleteThalassemiaUnitConsistent(db: Db, id: int)
    requires Consistent(db)
    ensures Consistent(DeleteThalassemiaUnit(db, id))
  {
    var unit := (c: Client) => c.unit;
    var clear := (c: Client) => c.(unit := None);
    SetNullClears(db.clients, unit, clear, {id}, db.units.Keys);
    SetNullKeepsRefs(db.clients, unit, clear, {id}, (c: Client) => c.diagnosis, db.diagnosisTypes.Keys);
    SetNullKeepsRefs(db.clients, unit, clear, {id}, (c: Client) => c.maritalStatus, db.choices.Keys);
    SetNullKeepsRefs(db.clients, unit, clear, {id}, (c: Client) => c.dsDivision, db.dsDivisions.Keys);
    SetNullKeepsUnique(db.clients, unit, clear, {id}, (c: Client) => c.registrationNumber);
    SetNullKeepsUniqueWhenSet(db.clients, unit, clear, {id}, (c: Client) => c.nicNumber);
    var dest := (t: ClientTransfer) => t.transferredUnit;
    var clearDest := (t: ClientTransfer) => t.(transferredUnit := None);
    SetNullClears(db.transfers, dest, clearDest, {id}, db.units.Keys);
    SetNullKeepsStrictRefs(db.transfers, dest, clearDest, {id}, (t: ClientTransfer) => t.client, db.clients.Keys);
    SetNullKeepsUnique(db.transfers, dest, clearDest, {id}, (t: ClientTransfer) => t.client);
  }

  lemma DeleteDiagnosisTypeConsistent(db: Db, id: int)
    requires Consistent(db)
    ensures Consistent(DeleteDiagnosisType(db, id))
  {
    var diagnosis := (c: Client) => c.diagnosis;
    var clear := (c: Client) => c.(diagnosis := None);
    SetNullClears(db.clients, diagnosis, clear, {id}, db.diagnosisTypes.Keys);
    SetNullKeepsRefs(db.clients, diagnosis, clear, {id}, (c: Client) => c.unit, db.units.Keys);
    SetNullKeepsRefs(db.clients, diagnosis, clear, {id}, (c: Client) => c.maritalStatus, db.choices.Keys);
    SetNullKeepsRefs(db.clients, diagnosis, clear, {id}, (c: Client) => c.dsDivision, db.dsDivisions.Keys);
    SetNullKeepsUnique(db.clients, diagnosis, clear, {id}, (c: Client) => c.registrationNumber);
    SetNullKeepsUniqueWhenSet(db.clients, diagnosis, clear, {id}, (c: Client) => c.nicNumber);
    var memberDiagnosis := (f: FamilyMember) => f.diagnosis;
    var clearMember := (f: FamilyMember) => f.(diagnosis := None);
    SetNullClears(db.familyMembers, memberDiagnosis, clearMember, {id}, db.diagnosisTypes.Keys);
    SetNullKeepsStrictRefs(db.familyMembers, memberDiagnosis, clearMember, {id}, (f: FamilyMember) => f.client,
                           db.clients.Keys);
  }

  lemma DeleteChoiceConsistent(db: Db, id: int)
    requires Consistent(db)
    ensures Consistent(DeleteChoice(db, id))
  {
    var marital := (c: Client) => c.maritalStatus;
    var clearMarital := (c: Client) => c.(maritalStatus := None);
    SetNullClears(db.clients, marital, clearMarital, {id}, db.choices.Keys);
    SetNullKeepsRefs(db.clients, marital, clearMarital, {id}, (c: Client) => c.unit, db.units.Keys);
    SetNullKeepsRefs(db.clients, marital, clearMarital, {id}, (c: Client) => c.diagnosis, db.diagnosisTypes.Keys);
    SetNullKeepsRefs(db.clients, marital, clearMarital, {id}, (c: Client) => c.dsDivision, db.dsDivisions.Keys);
    SetNullKeepsUnique(db.clients, marital, clearMarital, {id}, (c: Client) => c.registrationNumber);
    SetNullKeepsUniqueWhenSet(db.clients, marital, clearMarital, {id}, (c: Client) => c.nicNumber);
    var status := (c: Complication) => c.status;
    var clearStatus := (c: Complication) => c.(status := None);
    SetNullClears(db.complications, status, clearStatus, {id}, db.choices.Keys);
    SetNullKeepsStrictRefs(db.complications, status, clearStatus, {id}, (c: Complication) => c.client, db.clients.Keys);
    SetNullKeepsRefs(db.complications, status, clearStatus, {id}, (c: Complication) => c.complication,
                     db.complicationTypes.Keys);
    var vaccine := (v: Vaccination) => v.vaccineName;
    var clearVaccine := (v: Vaccination) => v.(vaccineName := None);
    SetNullClears(db.vaccinations, vaccine, clearVaccine, {id}, db.choices.Keys);
    SetNullKeepsStrictRefs(db.vaccinations, vaccine, clearVaccine, {id}, (v: Vaccination) => v.client, db.clients.Keys);
    var growth := (g: GrowthRecord) => g.growthType;
    var clearGrowth := (g: GrowthRecord) => g.(growthType := None);
    SetNullClears(db.growthRecords, growth, clearGrowth, {id}, db.choices.Keys);
    SetNullKeepsStrictRefs(db.growthRecords, growth, clearGrowth, {id}, (g: GrowthRecord) => g.client, db.clients.Keys);
    var special := (t: Transfusion) => t.specialType;
    var clearSpecial := (t: Transfusion) => t.(specialType := None);
    SetNullClears(db.transfusions, special, clearSpecial, {id}, db.choices.Keys);
    SetNullKeepsStrictRefs(db.transfusions, special, clearSpecial, {id}, (t: Transfusion) => t.admission,
                           db.admissions.Keys);
    var clinic := (v: ClinicVisit) => v.clinicType;
    var clearClinic := (v: ClinicVisit) => v.(clinicType := None);
    SetNullClears(db.clinicVisits, clinic, clearClinic, {id}, db.choices.Keys);
    SetNullKeepsStrictRefs(db.clinicVisits, clinic, clearClinic, {id}, (v: ClinicVisit) => v.client, db.clients.Keys);
  }

  lemma DeleteDrugNameConsistent(db: Db, id: int)
    requires Consistent(db)
    ensures Consistent(DeleteDrugName(db, id))
  {
    var name := (d: Drug) => d.drugName;
    var clear := (d: Drug) => d.(drugName := None);
    SetNullClears(db.drugs, name, clear, {id}, db.drugNames.Keys);
    SetNullKeepsStrictRefs(db.drugs, name, clear, {id}, (d: Drug) => d.client, db.clients.Keys);
  }

  lemma DeleteComplicationTypeConsistent(db: Db, id: int)
    requires Consistent(db)
    ensures Consistent(DeleteComplicationType(db, id))
  {
    var kind := (c: Complication) => c.complication;
    var clear := (c: Complication) => c.(complication := None);
    SetNullClears(db.complications, kind, clear, {id}, db.complicationTypes.Keys);
    SetNullKeepsStrictRefs(db.complications, kind, clear, {id}, (c: Complication) => c.client, db.clients.Keys);
    SetNullKeepsRefs(db.complications, kind, clear, {id}, (c: Complication) => c.status, db.choices.Keys);
  }

  lemma DeleteInvestigationTypeConsistent(db: Db, id: int)
    requires Consistent(db)
    ensures Consistent(DeleteInvestigationType(db, id))
  {
  }

  lemma RemoveAdmissionsConsistent(db: Db, gone: set<int>)
    requires Consistent(db)
    ensures Consistent(RemoveAdmissions(db, gone))
  {
  }

  lemma DeleteClientConsistent(db: Db, id: int)
    requires Consistent(db)
    ensures Consistent(DeleteClient(db, id))
  {
    var owned := Referencing(db.admissions, (a: Admission) => a.client, {id});
    RemoveAdmissionsConsistent(db, owned);
    var after := RemoveAdmissions(db, owned);
    CascadeDrops(after.deaths, (d: ClientDeath) => d.client, {id}, db.clients.Keys);
    CascadeKeepsUnique(after.deaths, (d: ClientDeath) => d.client, {id}, (d: ClientDeath) => d.client);
    CascadeDrops(after.transfers, (t: ClientTransfer) => t.client, {id}, db.clients.Keys);
    CascadeKeepsNullableRefs(after.transfers, (t: ClientTransfer) => t.client, {id},
                             (t: ClientTransfer) => t.transferredUnit, db.units.Keys);
    CascadeKeepsUnique(after.transfers, (t: ClientTransfer) => t.client, {id}, (t: ClientTransfer) => t.client);
    CascadeDrops(after.familyMembers, (f: FamilyMember) => f.client, {id}, db.clients.Keys);
    CascadeKeepsNullableRefs(after.familyMembers, (f: FamilyMember) => f.client, {id},
                             (f: FamilyMember) => f.diagnosis, db.diagnosisTypes.Keys);
    CascadeDrops(after.drugs, (d: Drug) => d.client, {id}, db.clients.Keys);
    CascadeKeepsNullableRefs(after.drugs, (d: Drug) => d.client, {id}, (d: Drug) => d.drugName, db.drugNames.Keys);
    CascadeDrops(after.complications, (c: Complication) => c.client, {id}, db.clients.Keys);
    CascadeKeepsNullableRefs(after.complications, (c: Complication) => c.client, {id},
                             (c: Complication) => c.complication, db.complicationTypes.Keys);
    CascadeKeepsNullableRefs(after.complications, (c: Complication) => c.client, {id},
                             (c: Complication) => c.status, db.choices.Keys);
    CascadeDrops(after.vaccinations, (v: Vaccination) => v.client, {id}, db.clients.Keys);
    CascadeKeepsNullableRefs(after.vaccinations, (v: Vaccination) => v.client, {id},
                             (v: Vaccination) => v.vaccineName, db.choices.Keys);
    CascadeDrops(after.investigations, (i: Investigation) => i.client, {id}, db.clients.Keys);
    CascadeKeepsNullableRefs(after.investigations, (i: Investigation) => i.client, {id},
                             (i: Investigation) => i.investigationType, db.investigationTypes.Keys);
    CascadeDrops(after.growthRecords, (g: GrowthRecord) => g.client, {id}, db.clients.Keys);
    CascadeKeepsNullableRefs(after.growthRecords, (g: GrowthRecord) => g.client, {id},
                             (g: GrowthRecord) => g.growthType, db.choices.Keys);
    CascadeDrops(after.clinicVisits, (v: ClinicVisit) => v.client, {id}, db.clients.Keys);
    CascadeKeepsNullableRefs(after.clinicVisits, (v: ClinicVisit) => v.client, {id},
                             (v: ClinicVisit) => v.clinicType, db.choices.Keys);
  }

  // ---------------------------------------------------------------- what each delete does

  /**
   * Deleting a province removes it and no other province, every district of it, and every division
   * of those districts; only those tables and the located rows below change.
   */
  lemma DeleteProvinceEffect(db: Db, id: int)
    ensures var r := DeleteProvince(db, id);
      && r.provinces == db.provinces - {id}
      && WithoutRows(db.districts, r.districts, (d: District) => d.province == id)
      && WithoutRows(db.dsDivisions, r.dsDivisions,
                     (v: DsDivision) => v.district in db.districts && db.districts[v.district].province == id)
      && r == db.(provinces := r.provinces, districts := r.districts, dsDivisions := r.dsDivisions,
                  units := r.units, clients := r.clients)
  {
    var r := DeleteProvince(db, id);
    var districtsGone := Referencing(db.districts, (d: District) => d.province, {id});
    assert r.districts == db.districts - districtsGone;
    RemoveReferencingOwned(db.districts, (d: District) => d.province, {id}, (d: District) => d.province == id);
    assert r.dsDivisions == db.dsDivisions - Referencing(db.dsDivisions, (v: DsDivision) => v.district, districtsGone);
    RemoveReferencingOwned(db.dsDivisions, (v: DsDivision) => v.district, districtsGone,
                           (v: DsDivision) => v.district in db.districts && db.districts[v.district].province == id);
  }

  /** The units and clients located in a division that went with a deleted province stay, unlocated. */
  lemma DeleteProvinceKeepsLocatedRows(db: Db, id: int)
    ensures var r := DeleteProvince(db, id);
      && ClearedWhere(db.units, r.units,
                      (u: ThalassemiaUnit) => RefersTo(u.dsDivision, db.dsDivisions.Keys - r.dsDivisions.Keys),
                      (u: ThalassemiaUnit) => u.(dsDivision := None))
      && ClearedWhere(db.clients, r.clients,
                      (c: Client) => RefersTo(c.dsDivision, db.dsDivisions.Keys - r.dsDivisions.Keys),
                      (c: Client) => c.(dsDivision := None))
  {
    var r := DeleteProvince(db, id);
    var districtsGone := Referencing(db.districts, (d: District) => d.province, {id});
    var divisionsGone := Referencing(db.dsDivisions, (v: DsDivision) => v.district, districtsGone);
    assert db.dsDivisions.Keys - r.dsDivisions.Keys == divisionsGone;
    SetNullClearsWhere(db.units, (u: ThalassemiaUnit) => u.dsDivision, (u: ThalassemiaUnit) => u.(dsDivision := None),
                       divisionsGone,
                       (u: ThalassemiaUnit) => RefersTo(u.dsDivision, db.dsDivisions.Keys - r.dsDivisions.Keys));
    SetNullClearsWhere(db.clients, (c: Client) => c.dsDivision, (c: Client) => c.(dsDivision := None),
                       divisionsGone, (c: Client) => RefersTo(c.dsDivision, db.dsDivisions.Keys - r.dsDivisions.Keys));
  }

  /** Deleting a district removes it and its divisions; units and clients in those divisions survive. */
  lemma DeleteDistrictEffect(db: Db, id: int)
    ensures var r := DeleteDistrict(db, id);
      && r.districts == db.districts - {id}
      && WithoutRows(db.dsDivisions, r.dsDivisions, (v: DsDivision) => v.district == id)
      && ClearedWhere(db.units, r.units,
                      (u: ThalassemiaUnit) => RefersTo(u.dsDivision, db.dsDivisions.Keys - r.dsDivisions.Keys),
                      (u: ThalassemiaUnit) => u.(dsDivision := None))
      && ClearedWhere(db.clients, r.clients,
                      (c: Client) => RefersTo(c.dsDivision, db.dsDivisions.Keys - r.dsDivisions.Keys),
                      (c: Client) => c.(dsDivision := None))
      && r == db.(districts := r.districts, dsDivisions := r.dsDivisions, units := r.units, clients := r.clients)
  {
    var r := DeleteDistrict(db, id);
    var divisionsGone := Referencing(db.dsDivisions, (v: DsDivision) => v.district, {id});
    assert r.dsDivisions == db.dsDivisions - divisionsGone;
    RemoveReferencingOwned(db.dsDivisions, (v: DsDivision) => v.district, {id}, (v: DsDivision) => v.district == id);
    assert db.dsDivisions.Keys - r.dsDivisions.Keys == divisionsGone;
    SetNullClearsWhere(db.units, (u: ThalassemiaUnit) => u.dsDivision, (u: ThalassemiaUnit) => u.(dsDivision := None),
                       divisionsGone,
                       (u: ThalassemiaUnit) => RefersTo(u.dsDivision, db.dsDivisions.Keys - r.dsDivisions.Keys));
    SetNullClearsWhere(db.clients, (c: Client) => c.dsDivision, (c: Client) => c.(dsDivision := None),
                       divisionsGone, (c: Client) => RefersTo(c.dsDivision, db.dsDivisions.Keys - r.dsDivisions.Keys));
  }

  /** Deleting a division keeps every unit and client that was in it, with only `ds_division` cleared. */
  lemma DeleteDsDivisionEffect(db: Db, id: int)
    ensures var r := DeleteDsDivision(db, id);
      && r.dsDivisions == db.dsDivisions - {id}
      && ClearedWhere(db.units, r.units, (u: ThalassemiaUnit) => u.dsDivision == Some(id),
                      (u: ThalassemiaUnit) => u.(dsDivision := None))
      && ClearedWhere(db.clients, r.clients, (c: Client) => c.dsDivision == Some(id),
                      (c: Client) => c.(dsDivision := None))
      && r == db.(dsDivisions := r.dsDivisions, units := r.units, clients := r.clients)
  {
  }

  /** Deleting a unit keeps its clients and the transfers to it, with only the unit cleared. */
  lemma DeleteThalassemiaUnitEffect(db: Db, id: int)
    ensures var r := DeleteThalassemiaUnit(db, id);
      && r.units == db.units - {id}
      && ClearedWhere(db.clients, r.clients, (c: Client) => c.unit == Some(id), (c: Client) => c.(unit := None))
      && ClearedWhere(db.transfers, r.transfers, (t: ClientTransfer) => t.transferredUnit == Some(id),
                      (t: ClientTransfer) => t.(transferredUnit := None))
      && r == db.(units := r.units, clients := r.clients, transfers := r.transfers)
  {
  }

  /** Deleting a diagnosis type keeps the clients and family members diagnosed with it. */
  lemma DeleteDiagnosisTypeEffect(db: Db, id: int)
    ensures var r := DeleteDiagnosisType(db, id);
      && r.diagnosisTypes == db.diagnosisTypes - {id}
      && ClearedWhere(db.clients, r.clients, (c: Client) => c.diagnosis == Some(id),
                      (c: Client) => c.(diagnosis := None))
      && ClearedWhere(db.familyMembers, r.familyMembers, (f: FamilyMember) => f.diagnosis == Some(id),
                      (f: FamilyMember) => f.(diagnosis := None))
      && r == db.(diagnosisTypes := r.diagnosisTypes, clients := r.clients, familyMembers := r.familyMembers)
  {
  }

  /** Deleting a choice keeps every row that used it, with only the referring field cleared. */
  lemma DeleteChoiceEffect(db: Db, id: int)
    ensures var r := DeleteChoice(db, id);
      && r.choices == db.choices - {id}
      && ClearedWhere(db.clients, r.clients, (c: Client) => c.maritalStatus == Some(id),
                      (c: Client) => c.(maritalStatus := None))
      && ClearedWhere(db.complications, r.complications, (c: Complication) => c.status == Some(id),
                      (c: Complication) => c.(status := None))
      && ClearedWhere(db.vaccinations, r.vaccinations, (v: Vaccination) => v.vaccineName == Some(id),
                      (v: Vaccination) => v.(vaccineName := None))
      && ClearedWhere(db.growthRecords, r.growthRecords, (g: GrowthRecord) => g.growthType == Some(id),
                      (g: GrowthRecord) => g.(growthType := None))
      && ClearedWhere(db.transfusions, r.transfusions, (t: Transfusion) => t.specialType == Some(id),
                      (t: Transfusion) => t.(specialType := None))
      && ClearedWhere(db.clinicVisits, r.clinicVisits, (v: ClinicVisit) => v.clinicType == Some(id),
                      (v: ClinicVisit) => v.(clinicType := None))
      && r == db.(choices := r.choices, clients := r.clients, complications := r.complications,
                  vaccinations := r.vaccinations, growthRecords := r.growthRecords,
                  transfusions := r.transfusions, clinicVisits := r.clinicVisits)
  {
    SetNullClearsWhere(db.clients, (c: Client) => c.maritalStatus, (c: Client) => c.(maritalStatus := None), {id},
                       (c: Client) => c.maritalStatus == Some(id));
    SetNullClearsWhere(db.complications, (c: Complication) => c.status, (c: Complication) => c.(status := None), {id},
                       (c: Complication) => c.status == Some(id));
    SetNullClearsWhere(db.vaccinations, (v: Vaccination) => v.vaccineName, (v: Vaccination) => v.(vaccineName := None),
                       {id}, (v: Vaccination) => v.vaccineName == Some(id));
    SetNullClearsWhere(db.growthRecords, (g: GrowthRecord) => g.growthType, (g: GrowthRecord) => g.(growthType := None),
                       {id}, (g: GrowthRecord) => g.growthType == Some(id));
    SetNullClearsWhere(db.transfusions, (t: Transfusion) => t.specialType, (t: Transfusion) => t.(specialType := None),
                       {id}, (t: Transfusion) => t.specialType == Some(id));
    SetNullClearsWhere(db.clinicVisits, (v: ClinicVisit) => v.clinicType, (v: ClinicVisit) => v.(clinicType := None),
                       {id}, (v: ClinicVisit) => v.clinicType == Some(id));
  }

  /**
   * Deleting a drug name keeps every prescription of it; only `drug_name` is cleared, and the
   * prescription's client, dose, regimen and duration are as they were.
   */
  lemma DeleteDrugNameEffect(db: Db, id: int)
    ensures var r := DeleteDrugName(db, id);
      && r.drugNames == db.drugNames - {id}
      && ClearedWhere(db.drugs, r.drugs, (d: Drug) => d.drugName == Some(id), (d: Drug) => d.(drugName := None))
      && (forall k :: k in r.drugs ==>
            && r.drugs[k].client == db.drugs[k].client
            && r.drugs[k].dose == db.drugs[k].dose
            && r.drugs[k].regimen == db.drugs[k].regimen
            && r.drugs[k].duration == db.drugs[k].duration)
      && r == db.(drugNames := r.drugNames, drugs := r.drugs)
  {
  }

  lemma DeleteComplicationTypeEffect(db: Db, id: int)
    ensures var r := DeleteComplicationType(db, id);
      && r.complicationTypes == db.complicationTypes - {id}
      && ClearedWhere(db.complications, r.complications, (c: Complication) => c.complication == Some(id),
                      (c: Complication) => c.(complication := None))
      && r == db.(complicationTypes := r.complicationTypes, complications := r.complications)
  {
  }

  lemma DeleteInvestigationTypeEffect(db: Db, id: int)
    ensures var r := DeleteInvestigationType(db, id);
      && r.investigationTypes == db.investigationTypes - {id}
      && ClearedWhere(db.investigations, r.investigations, (i: Investigation) => i.investigationType == Some(id),
                      (i: Investigation) => i.(investigationType := None))
      && r == db.(investigationTypes := r.investigationTypes, investigations := r.investigations)
  {
  }

  /** Deleting an admission removes exactly its transfusions. */
  lemma DeleteAdmissionEffect(db: Db, id: int)
    ensures var r := DeleteAdmission(db, id);
      && r.admissions == db.admissions - {id}
      && WithoutRows(db.transfusions, r.transfusions, (t: Transfusion) => t.admission == id)
      && r == db.(admissions := r.admissions, transfusions := r.transfusions)
  {
  }

  /**
   * Deleting a client removes the client, its death and transfer records and its family members,
   * and nothing of any other client; a family member's `pt_id` is plain text, so a member row of
   * another client is kept as it was even when its `pt_id` names the deleted client.
   */
  lemma DeleteClientRecordsEffect(db: Db, id: int)
    ensures var r := DeleteClient(db, id);
      && r.clients == db.clients - {id}
      && WithoutRows(db.deaths, r.deaths, (d: ClientDeath) => d.client == id)
      && WithoutRows(db.transfers, r.transfers, (t: ClientTransfer) => t.client == id)
      && WithoutRows(db.familyMembers, r.familyMembers, (f: FamilyMember) => f.client == id)
      && r.choices == db.choices && r.provinces == db.provinces && r.districts == db.districts
      && r.dsDivisions == db.dsDivisions && r.units == db.units && r.diagnosisTypes == db.diagnosisTypes
      && r.drugNames == db.drugNames && r.complicationTypes == db.complicationTypes
      && r.investigationTypes == db.investigationTypes
  {
    var r := DeleteClient(db, id);
    assert r.deaths == Cascade(db.deaths, (d: ClientDeath) => d.client, {id});
    assert r.transfers == Cascade(db.transfers, (t: ClientTransfer) => t.client, {id});
    assert r.familyMembers == Cascade(db.familyMembers, (f: FamilyMember) => f.client, {id});
    CascadeRemovesOwned(db.deaths, (d: ClientDeath) => d.client, {id}, (d: ClientDeath) => d.client == id);
    CascadeRemovesOwned(db.transfers, (t: ClientTransfer) => t.client, {id}, (t: ClientTransfer) => t.client == id);
    CascadeRemovesOwned(db.familyMembers, (f: FamilyMember) => f.client, {id}, (f: FamilyMember) => f.client == id);
  }

  /** Deleting a client removes exactly its own prescriptions. */
  lemma DeleteClientDrugsEffect(db: Db, id: int)
    ensures WithoutRows(db.drugs, DeleteClient(db, id).drugs, (d: Drug) => d.client == id)
  {
  }

  /**
   * Deleting a client removes exactly its complications, vaccinations, investigations, growth
   * records and clinic visits.
   */
  lemma DeleteClientClinicalEffect(db: Db, id: int)
    ensures var r := DeleteClient(db, id);
      && WithoutRows(db.complications, r.complications, (c: Complication) => c.client == id)
      && WithoutRows(db.vaccinations, r.vaccinations, (v: Vaccination) => v.client == id)
      && WithoutRows(db.investigations, r.investigations, (i: Investigation) => i.client == id)
      && WithoutRows(db.growthRecords, r.growthRecords, (g: GrowthRecord) => g.client == id)
      && WithoutRows(db.clinicVisits, r.clinicVisits, (v: ClinicVisit) => v.client == id)
  {
    var r := DeleteClient(db, id);
    assert r.complications == Cascade(db.complications, (c: Complication) => c.client, {id});
    assert r.vaccinations == Cascade(db.vaccinations, (v: Vaccination) => v.client, {id});
    assert r.investigations == Cascade(db.investigations, (i: Investigation) => i.client, {id});
    assert r.growthRecords == Cascade(db.growthRecords, (g: GrowthRecord) => g.client, {id});
    assert r.clinicVisits == Cascade(db.clinicVisits, (v: ClinicVisit) => v.client, {id});
    CascadeRemovesOwned(db.complications, (c: Complication) => c.client, {id}, (c: Complication) => c.client == id);
    CascadeRemovesOwned(db.vaccinations, (v: Vaccination) => v.client, {id}, (v: Vaccination) => v.client == id);
    CascadeRemovesOwned(db.investigations, (i: Investigation) => i.client, {id}, (i: Investigation) => i.client == id);
    CascadeRemovesOwned(db.growthRecords, (g: GrowthRecord) => g.client, {id}, (g: GrowthRecord) => g.client == id);
    CascadeRemovesOwned(db.clinicVisits, (v: ClinicVisit) => v.client, {id}, (v: ClinicVisit) => v.client == id);
  }

  /** Deleting a client removes exactly its admissions and the transfusions given during them. */
  lemma DeleteClientAdmissionsEffect(db: Db, id: int)
    ensures var r := DeleteClient(db, id);
      && WithoutRows(db.admissions, r.admissions, (a: Admission) => a.client == id)
      && WithoutRows(db.transfusions, r.transfusions,
                     (t: Transfusion) => t.admission in db.admissions && db.admissions[t.admission].client == id)
  {
    var r := DeleteClient(db, id);
    var admissionsGone := Referencing(db.admissions, (a: Admission) => a.client, {id});
    assert r.admissions == db.admissions - admissionsGone;
    RemoveReferencingOwned(db.admissions, (a: Admission) => a.client, {id}, (a: Admission) => a.client == id);
    assert r.transfusions == Cascade(db.transfusions, (t: Transfusion) => t.admission, admissionsGone);
    CascadeRemovesOwned(db.transfusions, (t: Transfusion) => t.admission, admissionsGone,
                        (t: Transfusion) => t.admission in db.admissions && db.admissions[t.admission].client == id);
  }

  /** A transfusion's patient: the client of the admission it was given in. */
  function TransfusionClient(db: Db, t: int): int
    requires t in db.transfusions && db.transfusions[t].admission in db.admissions
  {
    db.admissions[db.transfusions[t].admission].client
  }

  /** In a consistent store every transfusion has a patient, and that patient is a client on record. */
  lemma TransfusionHasClient(db: Db, t: int)
    requires Consistent(db) && t in db.transfusions
    ensures db.transfusions[t].admission in db.admissions && TransfusionClient(db, t) in db.clients
  {
  }

  /** After a client is deleted, no transfusion is left whose patient was that client. */
  lemma NoTransfusionOutlivesClient(db: Db, id: int, t: int)
    requires Consistent(db) && t in DeleteClient(db, id).transfusions
    ensures TransfusionClient(DeleteClient(db, id), t) != id
  {
    DeleteClientConsistent(db, id);
    TransfusionHasClient(DeleteClient(db, id), t);
  }

  /** One-to-one: a client has at most one death record and at most one transfer record. */
  lemma AtMostOneDeathAndTransfer(db: Db, c: int)
    requires Consistent(db)
    ensures |Referencing(db.deaths, (d: ClientDeath) => d.client, {c})| <= 1
    ensures |Referencing(db.transfers, (t: ClientTransfer) => t.client, {c})| <= 1
  {
    AtMostOneOwned(db.deaths, (d: ClientDeath) => d.client, c);
    AtMostOneOwned(db.transfers, (t: ClientTransfer) => t.client, c);
  }

  // ---------------------------------------------------------------- deleting a row that is not there

  /** Deleting divisions none of which is on record changes nothing. */
  lemma RemoveDivisionsAbsent(db: Db, gone: set<int>)
    requires Consistent(db) && db.dsDivisions.Keys !! gone
    ensures RemoveDivisions(db, gone) == db
  {
    SetNullNothing(db.units, (u: ThalassemiaUnit) => u.dsDivision,
                   (u: ThalassemiaUnit) => u.(dsDivision := None), gone, db.dsDivisions.Keys);
    SetNullNothing(db.clients, (c: Client) => c.dsDivision, (c: Client) => c.(dsDivision := None), gone,
                   db.dsDivisions.Keys);
  }

  /** Deleting districts none of which is on record changes nothing: no division can name them. */
  lemma RemoveDistrictsAbsent(db: Db, gone: set<int>)
    requires Consistent(db) && db.districts.Keys !! gone
    ensures RemoveDistricts(db, gone) == db
  {
    ReferencingNothing(db.dsDivisions, (v: DsDivision) => v.district, gone, db.districts.Keys);
    RemoveDivisionsAbsent(db, {});
  }

  /** Deleting a province that is not on record changes nothing: no district can name it. */
  lemma DeleteProvinceAbsent(db: Db, id: int)
    requires Consistent(db) && id !in db.provinces
    ensures DeleteProvince(db, id) == db
  {
    var districtsGone := Referencing(db.districts, (d: District) => d.province, {id});
    ReferencingNothing(db.districts, (d: District) => d.province, {id}, db.provinces.Keys);
    RemoveDistrictsAbsent(db, districtsGone);
  }

  lemma DeleteDistrictAbsent(db: Db, id: int)
    requires Consistent(db) && id !in db.districts
    ensures DeleteDistrict(db, id) == db
  {
    RemoveDistrictsAbsent(db, {id});
  }

  lemma DeleteDsDivisionAbsent(db: Db, id: int)
    requires Consistent(db) && id !in db.dsDivisions
    ensures DeleteDsDivision(db, id) == db
  {
    RemoveDivisionsAbsent(db, {id});
  }

  lemma DeleteThalassemiaUnitAbsent(db: Db, id: int)
    requires Consistent(db) && id !in db.units
    ensures DeleteThalassemiaUnit(db, id) == db
  {
    SetNullNothing(db.clients, (c: Client) => c.unit, (c: Client) => c.(unit := None), {id}, db.units.Keys);
    SetNullNothing(db.transfers, (t: ClientTransfer) => t.transferredUnit,
                   (t: ClientTransfer) => t.(transferredUnit := None), {id}, db.units.Keys);
  }

  lemma DeleteDiagnosisTypeAbsent(db: Db, id: int)
    requires Consistent(db) && id !in db.diagnosisTypes
    ensures DeleteDiagnosisType(db, id) == db
  {
    SetNullNothing(db.clients, (c: Client) => c.diagnosis, (c: Client) => c.(diagnosis := None), {id},
                   db.diagnosisTypes.Keys);
    SetNullNothing(db.familyMembers, (f: FamilyMember) => f.diagnosis,
                   (f: FamilyMember) => f.(diagnosis := None), {id}, db.diagnosisTypes.Keys);
  }

  lemma DeleteChoiceAbsent(db: Db, id: int)
    requires Consistent(db) && id !in db.choices
    ensures DeleteChoice(db, id) == db
  {
    SetNullNothing(db.clients, (c: Client) => c.maritalStatus,
                   (c: Client) => c.(maritalStatus := None), {id}, db.choices.Keys);
    SetNullNothing(db.complications, (c: Complication) => c.status,
                   (c: Complication) => c.(status := None), {id}, db.choices.Keys);
    SetNullNothing(db.vaccinations, (v: Vaccination) => v.vaccineName,
                   (v: Vaccination) => v.(vaccineName := None), {id}, db.choices.Keys);
    SetNullNothing(db.growthRecords, (g: GrowthRecord) => g.growthType,
                   (g: GrowthRecord) => g.(growthType := None), {id}, db.choices.Keys);
    SetNullNothing(db.transfusions, (t: Transfusion) => t.specialType,
                   (t: Transfusion) => t.(specialType := None), {id}, db.choices.Keys);
    SetNullNothing(db.clinicVisits, (v: ClinicVisit) => v.clinicType,
                   (v: ClinicVisit) => v.(clinicType := None), {id}, db.choices.Keys);
  }

  lemma DeleteDrugNameAbsent(db: Db, id: int)
    requires Consistent(db) && id !in db.drugNames
    ensures DeleteDrugName(db, id) == db
  {
    SetNullNothing(db.drugs, (d: Drug) => d.drugName, (d: Drug) => d.(drugName := None), {id}, db.drugNames.Keys);
  }

  lemma DeleteComplicationTypeAbsent(db: Db, id: int)
    requires Consistent(db) && id !in db.complicationTypes
    ensures DeleteComplicationType(db, id) == db
  {
    SetNullNothing(db.complications, (c: Complication) => c.complication,
                   (c: Complication) => c.(complication := None), {id}, db.complicationTypes.Keys);
  }

  lemma DeleteInvestigationTypeAbsent(db: Db, id: int)
    requires Consistent(db) && id !in db.investigationTypes
    ensures DeleteInvestigationType(db, id) == db
  {
    SetNullNothing(db.investigations, (i: Investigation) => i.investigationType,
                   (i: Investigation) => i.(investigationType := None), {id}, db.investigationTypes.Keys);
  }

  lemma DeleteAdmissionAbsent(db: Db, id: int)
    requires Consistent(db) && id !in db.admissions
    ensures DeleteAdmission(db, id) == db
  {
    RemoveAdmissionsAbsent(db, {id});
  }

  /** Deleting admissions none of which is on record changes nothing. */
  lemma RemoveAdmissionsAbsent(db: Db, gone: set<int>)
    requires Consistent(db) && db.admissions.Keys !! gone
    ensures RemoveAdmissions(db, gone) == db
  {
    CascadeNothing(db.transfusions, (t: Transfusion) => t.admission, gone, db.admissions.Keys);
  }

  /** Deleting a client that is not on record changes nothing: no row can belong to it. */
  lemma DeleteClientAbsent(db: Db, id: int)
    requires Consistent(db) && id !in db.clients
    ensures DeleteClient(db, id) == db
  {
    var admissionsGone := Referencing(db.admissions, (a: Admission) => a.client, {id});
    ReferencingNothing(db.admissions, (a: Admission) => a.client, {id}, db.clients.Keys);
    RemoveAdmissionsAbsent(db, admissionsGone);
    CascadeNothing(db.deaths, (d: ClientDeath) => d.client, {id}, db.clients.Keys);
    CascadeNothing(db.transfers, (t: ClientTransfer) => t.client, {id}, db.clients.Keys);
    CascadeNothing(db.familyMembers, (f: FamilyMember) => f.client, {id}, db.clients.Keys);
    CascadeNothing(db.drugs, (d: Drug) => d.client, {id}, db.clients.Keys);
    CascadeNothing(db.complications, (c: Complication) => c.client, {id}, db.clients.Keys);
    CascadeNothing(db.vaccinations, (v: Vaccination) => v.client, {id}, db.clients.Keys);
    CascadeNothing(db.investigations, (i: Investigation) => i.client, {id}, db.clients.Keys);
    CascadeNothing(db.growthRecords, (g: GrowthRecord) => g.client, {id}, db.clients.Keys);
    CascadeNothing(db.clinicVisits, (v: ClinicVisit) => v.client, {id}, db.clients.Keys);
  }

  // ---------------------------------------------------------------- inserts

  /**
   * The checks the store makes when a row is inserted: the first UNIQUE column whose value is
   * taken, else the first foreign key naming no row; None when the insert may go ahead. A choice
   * has no constraint of either kind, so inserting one never fails.
   */
  function ProvinceViolation(db: Db, row: Province): Option<WriteError>
  {
    if Taken(db.provinces, (p: Province) => p.name, row.name) then Some(UniqueViolation("name"))
    else None
  }

  lemma InsertProvinceExact(db: Db, id: int, row: Province)
    requires Consistent(db) && id !in db.provinces
    ensures Consistent(db.(provinces := db.provinces[id := row])) <==> ProvinceViolation(db, row).None?
  {
    InsertUnique(db.provinces, (p: Province) => p.name, id, row);
  }

  function DistrictViolation(db: Db, row: District): Option<WriteError>
  {
    if Taken(db.districts, (d: District) => d.name, row.name) then Some(UniqueViolation("name"))
    else if row.province !in db.provinces then Some(ForeignKeyViolation("province"))
    else None
  }

  lemma InsertDistrictExact(db: Db, id: int, row: District)
    requires Consistent(db) && id !in db.districts
    ensures Consistent(db.(districts := db.districts[id := row])) <==> DistrictViolation(db, row).None?
  {
    InsertUnique(db.districts, (d: District) => d.name, id, row);
    InsertRefs(db.districts, (d: District) => d.province, db.provinces.Keys, id, row);
  }

  function DsDivisionViolation(db: Db, row: DsDivision): Option<WriteError>
  {
    if Taken(db.dsDivisions, (v: DsDivision) => v.name, row.name) then Some(UniqueViolation("name"))
    else if row.district !in db.districts then Some(ForeignKeyViolation("district"))
    else None
  }

  lemma InsertDsDivisionExact(db: Db, id: int, row: DsDivision)
    requires Consistent(db) && id !in db.dsDivisions
    ensures Consistent(db.(dsDivisions := db.dsDivisions[id := row])) <==> DsDivisionViolation(db, row).None?
  {
    InsertUnique(db.dsDivisions, (v: DsDivision) => v.name, id, row);
    InsertRefs(db.dsDivisions, (v: DsDivision) => v.district, db.districts.Keys, id, row);
  }

  function ThalassemiaUnitViolation(db: Db, row: ThalassemiaUnit): Option<WriteError>
  {
    if Taken(db.units, (u: ThalassemiaUnit) => u.name, row.name) then Some(UniqueViolation("name"))
    else if !RefOk(row.dsDivision, db.dsDivisions.Keys) then Some(ForeignKeyViolation("ds_division"))
    else None
  }

  lemma InsertThalassemiaUnitExact(db: Db, id: int, row: ThalassemiaUnit)
    requires Consistent(db) && id !in db.units
    ensures Consistent(db.(units := db.units[id := row])) <==> ThalassemiaUnitViolation(db, row).None?
  {
    InsertUnique(db.units, (u: ThalassemiaUnit) => u.name, id, row);
    InsertNullableRefs(db.units, (u: ThalassemiaUnit) => u.dsDivision, db.dsDivisions.Keys, id, row);
  }

  function DiagnosisTypeViolation(db: Db, row: DiagnosisType): Option<WriteError>
  {
    if Taken(db.diagnosisTypes, (t: DiagnosisType) => t.name, row.name) then Some(UniqueViolation("name"))
    else None
  }

  lemma InsertDiagnosisTypeExact(db: Db, id: int, row: DiagnosisType)
    requires Consistent(db) && id !in db.diagnosisTypes
    ensures Consistent(db.(diagnosisTypes := db.diagnosisTypes[id := row])) <==> DiagnosisTypeViolation(db, row).None?
  {
    InsertUnique(db.diagnosisTypes, (t: DiagnosisType) => t.name, id, row);
  }

  function ClientViolation(db: Db, row: Client): Option<WriteError>
  {
    if Taken(db.clients, (c: Client) => c.registrationNumber, row.registrationNumber) then Some(UniqueViolation("registration_number"))
    else if row.nicNumber.Some? && Taken(db.clients, (c: Client) => c.nicNumber, row.nicNumber) then Some(UniqueViolation("nic_number"))
    else if !RefOk(row.unit, db.units.Keys) then Some(ForeignKeyViolation("unit"))
    else if !RefOk(row.diagnosis, db.diagnosisTypes.Keys) then Some(ForeignKeyViolation("diagnosis"))
    else if !RefOk(row.maritalStatus, db.choices.Keys) then Some(ForeignKeyViolation("marital_status"))
    else if !RefOk(row.dsDivision, db.dsDivisions.Keys) then Some(ForeignKeyViolation("ds_division"))
    else None
  }

  lemma InsertClientExact(db: Db, id: int, row: Client)
    requires Consistent(db) && id !in db.clients
    ensures Consistent(db.(clients := db.clients[id := row])) <==> ClientViolation(db, row).None?
  {
    InsertUnique(db.clients, (c: Client) => c.registrationNumber, id, row);
    InsertUniqueWhenSet(db.clients, (c: Client) => c.nicNumber, id, row);
    InsertNullableRefs(db.clients, (c: Client) => c.unit, db.units.Keys, id, row);
    InsertNullableRefs(db.clients, (c: Client) => c.diagnosis, db.diagnosisTypes.Keys, id, row);
    InsertNullableRefs(db.clients, (c: Client) => c.maritalStatus, db.choices.Keys, id, row);
    InsertNullableRefs(db.clients, (c: Client) => c.dsDivision, db.dsDivisions.Keys, id, row);
  }

  function ClientDeathViolation(db: Db, row: ClientDeath): Option<WriteError>
  {
    if Taken(db.deaths, (d: ClientDeath) => d.client, row.client) then Some(UniqueViolation("client"))
    else if row.client !in db.clients then Some(ForeignKeyViolation("client"))
    else None
  }

  lemma InsertClientDeathExact(db: Db, id: int, row: ClientDeath)
    requires Consistent(db) && id !in db.deaths
    ensures Consistent(db.(deaths := db.deaths[id := row])) <==> ClientDeathViolation(db, row).None?
  {
    InsertUnique(db.deaths, (d: ClientDeath) => d.client, id, row);
    InsertRefs(db.deaths, (d: ClientDeath) => d.client, db.clients.Keys, id, row);
  }

  function ClientTransferViolation(db: Db, row: ClientTransfer): Option<WriteError>
  {
    if Taken(db.transfers, (t: ClientTransfer) => t.client, row.client) then Some(UniqueViolation("client"))
    else if row.client !in db.clients then Some(ForeignKeyViolation("client"))
    else if !RefOk(row.transferredUnit, db.units.Keys) then Some(ForeignKeyViolation("transferred_unit"))
    else None
  }

  lemma InsertClientTransferExact(db: Db, id: int, row: ClientTransfer)
    requires Consistent(db) && id !in db.transfers
    ensures Consistent(db.(transfers := db.transfers[id := row])) <==> ClientTransferViolation(db, row).None?
  {
    InsertUnique(db.transfers, (t: ClientTransfer) => t.client, id, row);
    InsertRefs(db.transfers, (t: ClientTransfer) => t.client, db.clients.Keys, id, row);
    InsertNullableRefs(db.transfers, (t: ClientTransfer) => t.transferredUnit, db.units.Keys, id, row);
  }

  function FamilyMemberViolation(db: Db, row: FamilyMember): Option<WriteError>
  {
    if row.client !in db.clients then Some(ForeignKeyViolation("client"))
    else if !RefOk(row.diagnosis, db.diagnosisTypes.Keys) then Some(ForeignKeyViolation("diagnosis"))
    else None
  }

  lemma InsertFamilyMemberExact(db: Db, id: int, row: FamilyMember)
    requires Consistent(db) && id !in db.familyMembers
    ensures Consistent(db.(familyMembers := db.familyMembers[id := row])) <==> FamilyMemberViolation(db, row).None?
  {
    InsertRefs(db.familyMembers, (f: FamilyMember) => f.client, db.clients.Keys, id, row);
    InsertNullableRefs(db.familyMembers, (f: FamilyMember) => f.diagnosis, db.diagnosisTypes.Keys, id, row);
  }

  function DrugNameViolation(db: Db, row: DrugName): Option<WriteError>
  {
    if Taken(db.drugNames, (n: DrugName) => n.name, row.name) then Some(UniqueViolation("name"))
    else None
  }

  lemma InsertDrugNameExact(db: Db, id: int, row: DrugName)
    requires Consistent(db) && id !in db.drugNames
    ensures Consistent(db.(drugNames := db.drugNames[id := row])) <==> DrugNameViolation(db, row).None?
  {
    InsertUnique(db.drugNames, (n: DrugName) => n.name, id, row);
  }

  function DrugViolation(db: Db, row: Drug): Option<WriteError>
  {
    if row.client !in db.clients then Some(ForeignKeyViolation("client"))
    else if !RefOk(row.drugName, db.drugNames.Keys) then Some(ForeignKeyViolation("drug_name"))
    else None
  }

  lemma InsertDrugExact(db: Db, id: int, row: Drug)
    requires Consistent(db) && id !in db.drugs
    ensures Consistent(db.(drugs := db.drugs[id := row])) <==> DrugViolation(db, row).None?
  {
    InsertRefs(db.drugs, (d: Drug) => d.client, db.clients.Keys, id, row);
    InsertNullableRefs(db.drugs, (d: Drug) => d.drugName, db.drugNames.Keys, id, row);
  }

  function ComplicationTypeViolation(db: Db, row: ComplicationType): Option<WriteError>
  {
    if Taken(db.complicationTypes, (t: ComplicationType) => t.name, row.name) then Some(UniqueViolation("name"))
    else None
  }

  lemma InsertComplicationTypeExact(db: Db, id: int, row: ComplicationType)
    requires Consistent(db) && id !in db.complicationTypes
    ensures Consistent(db.(complicationTypes := db.complicationTypes[id := row])) <==> ComplicationTypeViolation(db, row).None?
  {
    InsertUnique(db.complicationTypes, (t: ComplicationType) => t.name, id, row);
  }

  function ComplicationViolation(db: Db, row: Complication): Option<WriteError>
  {
    if row.client !in db.clients then Some(ForeignKeyViolation("client"))
    else if !RefOk(row.complication, db.complicationTypes.Keys) then Some(ForeignKeyViolation("complication"))
    else if !RefOk(row.status, db.choices.Keys) then Some(ForeignKeyViolation("status"))
    else None
  }

  lemma InsertComplicationExact(db: Db, id: int, row: Complication)
    requires Consistent(db) && id !in db.complications
    ensures Consistent(db.(complications := db.complications[id := row])) <==> ComplicationViolation(db, row).None?
  {
    InsertRefs(db.complications, (c: Complication) => c.client, db.clients.Keys, id, row);
    InsertNullableRefs(db.complications, (c: Complication) => c.complication, db.complicationTypes.Keys, id, row);
    InsertNullableRefs(db.complications, (c: Complication) => c.status, db.choices.Keys, id, row);
  }

  function VaccinationViolation(db: Db, row: Vaccination): Option<WriteError>
  {
    if row.client !in db.clients then Some(ForeignKeyViolation("client"))
    else if !RefOk(row.vaccineName, db.choices.Keys) then Some(ForeignKeyViolation("vaccine_name"))
    else None
  }

  lemma InsertVaccinationExact(db: Db, id: int, row: Vaccination)
    requires Consistent(db) && id !in db.vaccinations
    ensures Consistent(db.(vaccinations := db.vaccinations[id := row])) <==> VaccinationViolation(db, row).None?
  {
    InsertRefs(db.vaccinations, (v: Vaccination) => v.client, db.clients.Keys, id, row);
    InsertNullableRefs(db.vaccinations, (v: Vaccination) => v.vaccineName, db.choices.Keys, id, row);
  }

  function InvestigationTypeViolation(db: Db, row: InvestigationType): Option<WriteError>
  {
    if Taken(db.investigationTypes, (t: InvestigationType) => t.name, row.name) then Some(UniqueViolation("name"))
    else None
  }

  lemma InsertInvestigationTypeExact(db: Db, id: int, row: InvestigationType)
    requires Consistent(db) && id !in db.investigationTypes
    ensures Consistent(db.(investigationTypes := db.investigationTypes[id := row])) <==> InvestigationTypeViolation(db, row).None?
  {
    InsertUnique(db.investigationTypes, (t: InvestigationType) => t.name, id, row);
  }

  function InvestigationViolation(db: Db, row: Investigation): Option<WriteError>
  {
    if row.client !in db.clients then Some(ForeignKeyViolation("client"))
    else if !RefOk(row.investigationType, db.investigationTypes.Keys) then Some(ForeignKeyViolation("investigation_type"))
    else None
  }

  lemma InsertInvestigationExact(db: Db, id: int, row: Investigation)
    requires Consistent(db) && id !in db.investigations
    ensures Consistent(db.(investigations := db.investigations[id := row])) <==> InvestigationViolation(db, row).None?
  {
    InsertRefs(db.investigations, (i: Investigation) => i.client, db.clients.Keys, id, row);
    InsertNullableRefs(db.investigations, (i: Investigation) => i.investigationType, db.investigationTypes.Keys, id, row);
  }

  function GrowthRecordViolation(db: Db, row: GrowthRecord): Option<WriteError>
  {
    if row.client !in db.clients then Some(ForeignKeyViolation("client"))
    else if !RefOk(row.growthType, db.choices.Keys) then Some(ForeignKeyViolation("type"))
    else None
  }

  lemma InsertGrowthRecordExact(db: Db, id: int, row: GrowthRecord)
    requires Consistent(db) && id !in db.growthRecords
    ensures Consistent(db.(growthRecords := db.growthRecords[id := row])) <==> GrowthRecordViolation(db, row).None?
  {
    InsertRefs(db.growthRecords, (g: GrowthRecord) => g.client, db.clients.Keys, id, row);
    InsertNullableRefs(db.growthRecords, (g: GrowthRecord) => g.growthType, db.choices.Keys, id, row);
  }

  function AdmissionViolation(db: Db, row: Admission): Option<WriteError>
  {
    if row.client !in db.clients then Some(ForeignKeyViolation("client"))
    else None
  }

  lemma InsertAdmissionExact(db: Db, id: int, row: Admission)
    requires Consistent(db) && id !in db.admissions
    ensures Consistent(db.(admissions := db.admissions[id := row])) <==> AdmissionViolation(db, row).None?
  {
    InsertRefs(db.admissions, (a: Admission) => a.client, db.clients.Keys, id, row);
  }

  function TransfusionViolation(db: Db, row: Transfusion): Option<WriteError>
  {
    if row.admission !in db.admissions then Some(ForeignKeyViolation("admission"))
    else if !RefOk(row.specialType, db.choices.Keys) then Some(ForeignKeyViolation("special_type"))
    else None
  }

  lemma InsertTransfusionExact(db: Db, id: int, row: Transfusion)
    requires Consistent(db) && id !in db.transfusions
    ensures Consistent(db.(transfusions := db.transfusions[id := row])) <==> TransfusionViolation(db, row).None?
  {
    InsertRefs(db.transfusions, (t: Transfusion) => t.admission, db.admissions.Keys, id, row);
    InsertNullableRefs(db.transfusions, (t: Transfusion) => t.specialType, db.choices.Keys, id, row);
  }

  function ClinicVisitViolation(db: Db, row: ClinicVisit): Option<WriteError>
  {
    if row.client !in db.clients then Some(ForeignKeyViolation("client"))
    else if !RefOk(row.clinicType, db.choices.Keys) then Some(ForeignKeyViolation("clinic_type"))
    else None
  }

  lemma InsertClinicVisitExact(db: Db, id: int, row: ClinicVisit)
    requires Consistent(db) && id !in db.clinicVisits
    ensures Consistent(db.(clinicVisits := db.clinicVisits[id := row])) <==> ClinicVisitViolation(db, row).None?
  {
    InsertRefs(db.clinicVisits, (v: ClinicVisit) => v.client, db.clients.Keys, id, row);
    InsertNullableRefs(db.clinicVisits, (v: ClinicVisit) => v.clinicType, db.choices.Keys, id, row);
  }

  lemma InsertChoiceConsistent(db: Db, id: int, row: Choice)
    requires Consistent(db)
    ensures Consistent(db.(choices := db.choices[id := row]))
  {
  }

  // ---------------------------------------------------------------- the UNIQUE columns, column by column

  /** A row whose name is already on record in its master list is refused on the name. */
  lemma DuplicateNamesRefused(db: Db, name: string)
    ensures (exists k :: k in db.provinces && db.provinces[k].name == name) ==>
              forall row: Province :: row.name == name ==> ProvinceViolation(db, row) == Some(UniqueViolation("name"))
    ensures (exists k :: k in db.districts && db.districts[k].name == name) ==>
              forall row: District :: row.name == name ==> DistrictViolation(db, row) == Some(UniqueViolation("name"))
    ensures (exists k :: k in db.dsDivisions && db.dsDivisions[k].name == name) ==>
              forall row: DsDivision :: row.name == name ==> DsDivisionViolation(db, row) == Some(UniqueViolation("name"))
    ensures (exists k :: k in db.units && db.units[k].name == name) ==>
              forall row: ThalassemiaUnit :: row.name == name ==>
                ThalassemiaUnitViolation(db, row) == Some(UniqueViolation("name"))
    ensures (exists k :: k in db.diagnosisTypes && db.diagnosisTypes[k].name == name) ==>
              forall row: DiagnosisType :: row.name == name ==>
                DiagnosisTypeViolation(db, row) == Some(UniqueViolation("name"))
    ensures (exists k :: k in db.drugNames && db.drugNames[k].name == name) ==>
              forall row: DrugName :: row.name == name ==> DrugNameViolation(db, row) == Some(UniqueViolation("name"))
    ensures (exists k :: k in db.complicationTypes && db.complicationTypes[k].name == name) ==>
              forall row: ComplicationType :: row.name == name ==>
                ComplicationTypeViolation(db, row) == Some(UniqueViolation("name"))
    ensures (exists k :: k in db.investigationTypes && db.investigationTypes[k].name == name) ==>
              forall row: InvestigationType :: row.name == name ==>
                InvestigationTypeViolation(db, row) == Some(UniqueViolation("name"))
  {
  }

  /**
   * A client repeating the registration number of a client on record is refused on that column;
   * one repeating a national identity number that is set is refused on a UNIQUE column too.
   */
  lemma DuplicateClientRefused(db: Db, other: int, row: Client)
    requires other in db.clients
    ensures db.clients[other].registrationNumber == row.registrationNumber ==>
              ClientViolation(db, row) == Some(UniqueViolation("registration_number"))
    ensures row.nicNumber.Some? && db.clients[other].nicNumber == row.nicNumber ==>
              ClientViolation(db, row).Some? && ClientViolation(db, row).value.UniqueViolation?
  {
  }

  /** A client without a national identity number never clashes on it, however many others lack one. */
  lemma NullNicNumbersNeverClash(db: Db, id: int, row: Client)
    requires Consistent(db) && id !in db.clients && row.nicNumber.None?
    ensures ClientViolation(db, row) != Some(UniqueViolation("nic_number"))
    ensures UniqueWhenSet(db.clients[id := row], (c: Client) => c.nicNumber)
  {
    InsertUniqueWhenSet(db.clients, (c: Client) => c.nicNumber, id, row);
  }

  /** Two clients on record whose registration numbers hold no colon are told apart by their labels. */
  lemma DistinctClientsDistinctLabels(db: Db, i: int, j: int)
    requires Consistent(db) && i in db.clients && j in db.clients && i != j
    requires ':' !in db.clients[i].registrationNumber && ':' !in db.clients[j].registrationNumber
    ensures Label(db.clients[i]) != Label(db.clients[j])
  {
    if Label(db.clients[i]) == Label(db.clients[j]) {
      LabelDeterminesClient(db.clients[i], db.clients[j]);
      assert false;
    }
  }

  /** A second death record, or a second transfer record, for the same client is refused. */
  lemma SecondDeathOrTransferRefused(db: Db, death: ClientDeath, transfer: ClientTransfer)
    ensures (exists k :: k in db.deaths && db.deaths[k].client == death.client) ==>
              ClientDeathViolation(db, death) == Some(UniqueViolation("client"))
    ensures (exists k :: k in db.transfers && db.transfers[k].client == transfer.client) ==>
              ClientTransferViolation(db, transfer) == Some(UniqueViolation("client"))
  {
  }

  // ---- validation against the tables on record

  /** A write the database does not refuse on a foreign key (it may still clash on a UNIQUE column). */
  predicate ReferencesHold(e: Option<WriteError>) {
    e.None? || e.value.UniqueViolation?
  }

  /**
   * A location row that passes model validation against the tables on record passes every
   * foreign-key check of the write.
   */
  lemma ValidLocationsPassForeignKeys(db: Db, d: District, v: DsDivision, u: ThalassemiaUnit)
    ensures ValidDistrict(d, db.provinces.Keys) ==> ReferencesHold(DistrictViolation(db, d))
    ensures ValidDsDivision(v, db.districts.Keys) ==> ReferencesHold(DsDivisionViolation(db, v))
    ensures ValidThalassemiaUnit(u, db.dsDivisions.Keys) ==> ReferencesHold(ThalassemiaUnitViolation(db, u))
  {
  }

  /** The same for a client and the rows about its registration. */
  lemma ValidClientRowsPassForeignKeys(db: Db, c: Client, death: ClientDeath, transfer: ClientTransfer,
                                       member: FamilyMember)
    ensures ValidClient(c, db.units.Keys, db.diagnosisTypes.Keys, db.choices, db.dsDivisions.Keys) ==>
              ReferencesHold(ClientViolation(db, c))
    ensures ValidClientDeath(death, db.clients.Keys) ==> ReferencesHold(ClientDeathViolation(db, death))
    ensures ValidClientTransfer(transfer, db.clients.Keys, db.units.Keys) ==>
              ReferencesHold(ClientTransferViolation(db, transfer))
    ensures ValidFamilyMember(member, db.clients.Keys, db.diagnosisTypes.Keys) ==>
              ReferencesHold(FamilyMemberViolation(db, member))
  {
  }

  /** The same for the clinical rows of a client. */
  lemma ValidClinicalRowsPassForeignKeys(
    db: Db, drug: Drug, complication: Complication, vaccination: Vaccination, investigation: Investigation,
    growth: GrowthRecord, admission: Admission, transfusion: Transfusion, visit: ClinicVisit)
    ensures ValidDrug(drug, db.clients.Keys, db.drugNames.Keys) ==> ReferencesHold(DrugViolation(db, drug))
    ensures ValidComplication(complication, db.clients.Keys, db.complicationTypes.Keys, db.choices) ==>
              ReferencesHold(ComplicationViolation(db, complication))
    ensures ValidVaccination(vaccination, db.clients.Keys, db.choices) ==>
              ReferencesHold(VaccinationViolation(db, vaccination))
    ensures ValidInvestigation(investigation, db.clients.Keys, db.investigationTypes.Keys) ==>
              ReferencesHold(InvestigationViolation(db, investigation))
    ensures ValidGrowthRecord(growth, db.clients.Keys, db.choices) ==> ReferencesHold(GrowthRecordViolation(db, growth))
    ensures ValidAdmission(admission, db.clients.Keys) ==> ReferencesHold(AdmissionViolation(db, admission))
    ensures ValidTransfusion(transfusion, db.admissions.Keys, db.choices) ==>
              ReferencesHold(TransfusionViolation(db, transfusion))
    ensures ValidClinicVisit(visit, db.clients.Keys, db.choices) ==> ReferencesHold(ClinicVisitViolation(db, visit))
  {
  }
}
