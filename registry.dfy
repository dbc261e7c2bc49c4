/**
 * The registry as the application holds it: the database, whose tables each operation updates in
 * place. Creating a row runs the store's write-time checks and either refuses the write, leaving
 * every table as it was, or inserts the row under a fresh primary key. Deleting a row carries out
 * the referential actions table by table, and ends in the state the matching Store function names.
 */
module Registry {
  import opened Wrappers
  import opened Tables
  import opened Lookup
  import opened Clients
  import opened Drugs
  import opened Management
  import opened Store

  class Registry {
    /** All twenty-one tables, each a map from primary key to row. */
    var tables: Db

    /** The store's invariant: referential integrity and the UNIQUE columns. */
    ghost predicate Valid()
      reads this
    {
      Consistent(tables)
    }

    /** A freshly migrated database: every table empty. */
    constructor ()
      ensures tables == Empty && Valid()
    {
      tables := Empty;
      EmptyConsistent();
    }

    /** A choice has no constraint the store checks, so it is always inserted. */
    method CreateChoice(row: Choice) returns (id: int)
      requires Valid()
      modifies this
      ensures Valid()
      ensures id !in old(tables.choices) && tables == old(tables).(choices := old(tables.choices)[id := row])
    {
      id := UnusedId(tables.choices);
      InsertChoiceConsistent(tables, id, row);
      tables := tables.(choices := tables.choices[id := row]);
    }

    method CreateProvince(row: Province) returns (result: Result<int, WriteError>)
      requires Valid()
      modifies this
      ensures Valid()
      ensures ProvinceViolation(old(tables), row).Some? ==>
                result == Failure(ProvinceViolation(old(tables), row).value) && tables == old(tables)
      ensures ProvinceViolation(old(tables), row).None? ==>
                && result.Success? && result.value !in old(tables.provinces)
                && tables == old(tables).(provinces := old(tables.provinces)[result.value := row])
    {
      var refused := ProvinceViolation(tables, row);
      if refused.Some? {
        return Failure(refused.value);
      }
      var id := UnusedId(tables.provinces);
      InsertProvinceExact(tables, id, row);
      tables := tables.(provinces := tables.provinces[id := row]);
      return Success(id);
    }

    method CreateDistrict(row: District) returns (result: Result<int, WriteError>)
      requires Valid()
      modifies this
      ensures Valid()
      ensures DistrictViolation(old(tables), row).Some? ==>
                result == Failure(DistrictViolation(old(tables), row).value) && tables == old(tables)
      ensures DistrictViolation(old(tables), row).None? ==>
                && result.Success? && result.value !in old(tables.districts)
                && tables == old(tables).(districts := old(tables.districts)[result.value := row])
    {
      var refused := DistrictViolation(tables, row);
      if refused.Some? {
        return Failure(refused.value);
      }
      var id := UnusedId(tables.districts);
      InsertDistrictExact(tables, id, row);
      tables := tables.(districts := tables.districts[id := row]);
      return Success(id);
    }

    method CreateDsDivision(row: DsDivision) returns (result: Result<int, WriteError>)
      requires Valid()
      modifies this
      ensures Valid()
      ensures DsDivisionViolation(old(tables), row).Some? ==>
                result == Failure(DsDivisionViolation(old(tables), row).value) && tables == old(tables)
      ensures DsDivisionViolation(old(tables), row).None? ==>
                && result.Success? && result.value !in old(tables.dsDivisions)
                && tables == old(tables).(dsDivisions := old(tables.dsDivisions)[result.value := row])
    {
      var refused := DsDivisionViolation(tables, row);
      if refused.Some? {
        return Failure(refused.value);
      }
      var id := UnusedId(tables.dsDivisions);
      InsertDsDivisionExact(tables, id, row);
      tables := tables.(dsDivisions := tables.dsDivisions[id := row]);
      return Success(id);
    }

    method CreateThalassemiaUnit(row: ThalassemiaUnit) returns (result: Result<int, WriteError>)
      requires Valid()
      modifies this
      ensures Valid()
      ensures ThalassemiaUnitViolation(old(tables), row).Some? ==>
                result == Failure(ThalassemiaUnitViolation(old(tables), row).value) && tables == old(tables)
      ensures ThalassemiaUnitViolation(old(tables), row).None? ==>
                && result.Success? && result.value !in old(tables.units)
                && tables == old(tables).(units := old(tables.units)[result.value := row])
    {
      var refused := ThalassemiaUnitViolation(tables, row);
      if refused.Some? {
        return Failure(refused.value);
      }
      var id := UnusedId(tables.units);
      InsertThalassemiaUnitExact(tables, id, row);
      tables := tables.(units := tables.units[id := row]);
      return Success(id);
    }

    method CreateDiagnosisType(row: DiagnosisType) returns (result: Result<int, WriteError>)
      requires Valid()
      modifies this
      ensures Valid()
      ensures DiagnosisTypeViolation(old(tables), row).Some? ==>
                result == Failure(DiagnosisTypeViolation(old(tables), row).value) && tables == old(tables)
      ensures DiagnosisTypeViolation(old(tables), row).None? ==>
                && result.Success? && result.value !in old(tables.diagnosisTypes)
                && tables == old(tables).(diagnosisTypes := old(tables.diagnosisTypes)[result.value := row])
    {
      var refused := DiagnosisTypeViolation(tables, row);
      if refused.Some? {
        return Failure(refused.value);
      }
      var id := UnusedId(tables.diagnosisTypes);
      InsertDiagnosisTypeExact(tables, id, row);
      tables := tables.(diagnosisTypes := tables.diagnosisTypes[id := row]);
      return Success(id);
    }

    method CreateClient(row: Client) returns (result: Result<int, WriteError>)
      requires Valid()
      modifies this
      ensures Valid()
      ensures ClientViolation(old(tables), row).Some? ==>
                result == Failure(ClientViolation(old(tables), row).value) && tables == old(tables)
      ensures ClientViolation(old(tables), row).None? ==>
                && result.Success? && result.value !in old(tables.clients)
                && tables == old(tables).(clients := old(tables.clients)[result.value := row])
    {
      var refused := ClientViolation(tables, row);
      if refused.Some? {
        return Failure(refused.value);
      }
      var id := UnusedId(tables.clients);
      InsertClientExact(tables, id, row);
      tables := tables.(clients := tables.clients[id := row]);
      return Success(id);
    }

    method CreateClientDeath(row: ClientDeath) returns (result: Result<int, WriteError>)
      requires Valid()
      modifies this
      ensures Valid()
      ensures ClientDeathViolation(old(tables), row).Some? ==>
                result == Failure(ClientDeathViolation(old(tables), row).value) && tables == old(tables)
      ensures ClientDeathViolation(old(tables), row).None? ==>
                && result.Success? && result.value !in old(tables.deaths)
                && tables == old(tables).(deaths := old(tables.deaths)[result.value := row])
    {
      var refused := ClientDeathViolation(tables, row);
      if refused.Some? {
        return Failure(refused.value);
      }
      var id := UnusedId(tables.deaths);
      InsertClientDeathExact(tables, id, row);
      tables := tables.(deaths := tables.deaths[id := row]);
      return Success(id);
    }

    method CreateClientTransfer(row: ClientTransfer) returns (result: Result<int, WriteError>)
      requires Valid()
      modifies this
      ensures Valid()
      ensures ClientTransferViolation(old(tables), row).Some? ==>
                result == Failure(ClientTransferViolation(old(tables), row).value) && tables == old(tables)
      ensures ClientTransferViolation(old(tables), row).None? ==>
                && result.Success? && result.value !in old(tables.transfers)
                && tables == old(tables).(transfers := old(tables.transfers)[result.value := row])
    {
      var refused := ClientTransferViolation(tables, row);
      if refused.Some? {
        return Failure(refused.value);
      }
      var id := UnusedId(tables.transfers);
      InsertClientTransferExact(tables, id, row);
      tables := tables.(transfers := tables.transfers[id := row]);
      return Success(id);
    }

    method CreateFamilyMember(row: FamilyMember) returns (result: Result<int, WriteError>)
      requires Valid()
      modifies this
      ensures Valid()
      ensures FamilyMemberViolation(old(tables), row).Some? ==>
                result == Failure(FamilyMemberViolation(old(tables), row).value) && tables == old(tables)
      ensures FamilyMemberViolation(old(tables), row).None? ==>
                && result.Success? && result.value !in old(tables.familyMembers)
                && tables == old(tables).(familyMembers := old(tables.familyMembers)[result.value := row])
    {
      var refused := FamilyMemberViolation(tables, row);
      if refused.Some? {
        return Failure(refused.value);
      }
      var id := UnusedId(tables.familyMembers);
      InsertFamilyMemberExact(tables, id, row);
      tables := tables.(familyMembers := tables.familyMembers[id := row]);
      return Success(id);
    }

    method CreateDrugName(row: DrugName) returns (result: Result<int, WriteError>)
      requires Valid()
      modifies this
      ensures Valid()
      ensures DrugNameViolation(old(tables), row).Some? ==>
                result == Failure(DrugNameViolation(old(tables), row).value) && tables == old(tables)
      ensures DrugNameViolation(old(tables), row).None? ==>
                && result.Success? && result.value !in old(tables.drugNames)
                && tables == old(tables).(drugNames := old(tables.drugNames)[result.value := row])
    {
      var refused := DrugNameViolation(tables, row);
      if refused.Some? {
        return Failure(refused.value);
      }
      var id := UnusedId(tables.drugNames);
      InsertDrugNameExact(tables, id, row);
      tables := tables.(drugNames := tables.drugNames[id := row]);
      return Success(id);
    }

    method CreateDrug(row: Drug) returns (result: Result<int, WriteError>)
      requires Valid()
      modifies this
      ensures Valid()
      ensures DrugViolation(old(tables), row).Some? ==>
                result == Failure(DrugViolation(old(tables), row).value) && tables == old(tables)
      ensures DrugViolation(old(tables), row).None? ==>
                && result.Success? && result.value !in old(tables.drugs)
                && tables == old(tables).(drugs := old(tables.drugs)[result.value := row])
    {
      var refused := DrugViolation(tables, row);
      if refused.Some? {
        return Failure(refused.value);
      }
      var id := UnusedId(tables.drugs);
      InsertDrugExact(tables, id, row);
      tables := tables.(drugs := tables.drugs[id := row]);
      return Success(id);
    }

    method CreateComplicationType(row: ComplicationType) returns (result: Result<int, WriteError>)
      requires Valid()
      modifies this
      ensures Valid()
      ensures ComplicationTypeViolation(old(tables), row).Some? ==>
                result == Failure(ComplicationTypeViolation(old(tables), row).value) && tables == old(tables)
      ensures ComplicationTypeViolation(old(tables), row).None? ==>
                && result.Success? && result.value !in old(tables.complicationTypes)
                && tables == old(tables).(complicationTypes := old(tables.complicationTypes)[result.value := row])
    {
      var refused := ComplicationTypeViolation(tables, row);
      if refused.Some? {
        return Failure(refused.value);
      }
      var id := UnusedId(tables.complicationTypes);
      InsertComplicationTypeExact(tables, id, row);
      tables := tables.(complicationTypes := tables.complicationTypes[id := row]);
      return Success(id);
    }

    method CreateComplication(row: Complication) returns (result: Result<int, WriteError>)
      requires Valid()
      modifies this
      ensures Valid()
      ensures ComplicationViolation(old(tables), row).Some? ==>
                result == Failure(ComplicationViolation(old(tables), row).value) && tables == old(tables)
      ensures ComplicationViolation(old(tables), row).None? ==>
                && result.Success? && result.value !in old(tables.complications)
                && tables == old(tables).(complications := old(tables.complications)[result.value := row])
    {
      var refused := ComplicationViolation(tables, row);
      if refused.Some? {
        return Failure(refused.value);
      }
      var id := UnusedId(tables.complications);
      InsertComplicationExact(tables, id, row);
      tables := tables.(complications := tables.complications[id := row]);
      return Success(id);
    }

    method CreateVaccination(row: Vaccination) returns (result: Result<int, WriteError>)
      requires Valid()
      modifies this
      ensures Valid()
      ensures VaccinationViolation(old(tables), row).Some? ==>
                result == Failure(VaccinationViolation(old(tables), row).value) && tables == old(tables)
      ensures VaccinationViolation(old(tables), row).None? ==>
                && result.Success? && result.value !in old(tables.vaccinations)
                && tables == old(tables).(vaccinations := old(tables.vaccinations)[result.value := row])
    {
      var refused := VaccinationViolation(tables, row);
      if refused.Some? {
        return Failure(refused.value);
      }
      var id := UnusedId(tables.vaccinations);
      InsertVaccinationExact(tables, id, row);
      tables := tables.(vaccinations := tables.vaccinations[id := row]);
      return Success(id);
    }

    method CreateInvestigationType(row: InvestigationType) returns (result: Result<int, WriteError>)
      requires Valid()
      modifies this
      ensures Valid()
      ensures InvestigationTypeViolation(old(tables), row).Some? ==>
                result == Failure(InvestigationTypeViolation(old(tables), row).value) && tables == old(tables)
      ensures InvestigationTypeViolation(old(tables), row).None? ==>
                && result.Success? && result.value !in old(tables.investigationTypes)
                && tables == old(tables).(investigationTypes := old(tables.investigationTypes)[result.value := row])
    {
      var refused := InvestigationTypeViolation(tables, row);
      if refused.Some? {
        return Failure(refused.value);
      }
      var id := UnusedId(tables.investigationTypes);
      InsertInvestigationTypeExact(tables, id, row);
      tables := tables.(investigationTypes := tables.investigationTypes[id := row]);
      return Success(id);
    }

    method CreateInvestigation(row: Investigation) returns (result: Result<int, WriteError>)
      requires Valid()
      modifies this
      ensures Valid()
      ensures InvestigationViolation(old(tables), row).Some? ==>
                result == Failure(InvestigationViolation(old(tables), row).value) && tables == old(tables)
      ensures InvestigationViolation(old(tables), row).None? ==>
                && result.Success? && result.value !in old(tables.investigations)
                && tables == old(tables).(investigations := old(tables.investigations)[result.value := row])
    {
      var refused := InvestigationViolation(tables, row);
      if refused.Some? {
        return Failure(refused.value);
      }
      var id := UnusedId(tables.investigations);
      InsertInvestigationExact(tables, id, row);
      tables := tables.(investigations := tables.investigations[id := row]);
      return Success(id);
    }

    method CreateGrowthRecord(row: GrowthRecord) returns (result: Result<int, WriteError>)
      requires Valid()
      modifies this
      ensures Valid()
      ensures GrowthRecordViolation(old(tables), row).Some? ==>
                result == Failure(GrowthRecordViolation(old(tables), row).value) && tables == old(tables)
      ensures GrowthRecordViolation(old(tables), row).None? ==>
                && result.Success? && result.value !in old(tables.growthRecords)
                && tables == old(tables).(growthRecords := old(tables.growthRecords)[result.value := row])
    {
      var refused := GrowthRecordViolation(tables, row);
      if refused.Some? {
        return Failure(refused.value);
      }
      var id := UnusedId(tables.growthRecords);
      InsertGrowthRecordExact(tables, id, row);
      tables := tables.(growthRecords := tables.growthRecords[id := row]);
      return Success(id);
    }

    method CreateAdmission(row: Admission) returns (result: Result<int, WriteError>)
      requires Valid()
      modifies this
      ensures Valid()
      ensures AdmissionViolation(old(tables), row).Some? ==>
                result == Failure(AdmissionViolation(old(tables), row).value) && tables == old(tables)
      ensures AdmissionViolation(old(tables), row).None? ==>
                && result.Success? && result.value !in old(tables.admissions)
                && tables == old(tables).(admissions := old(tables.admissions)[result.value := row])
    {
      var refused := AdmissionViolation(tables, row);
      if refused.Some? {
        return Failure(refused.value);
      }
      var id := UnusedId(tables.admissions);
      InsertAdmissionExact(tables, id, row);
      tables := tables.(admissions := tables.admissions[id := row]);
      return Success(id);
    }

    method CreateTransfusion(row: Transfusion) returns (result: Result<int, WriteError>)
      requires Valid()
      modifies this
      ensures Valid()
      ensures TransfusionViolation(old(tables), row).Some? ==>
                result == Failure(TransfusionViolation(old(tables), row).value) && tables == old(tables)
      ensures TransfusionViolation(old(tables), row).None? ==>
                && result.Success? && result.value !in old(tables.transfusions)
                && tables == old(tables).(transfusions := old(tables.transfusions)[result.value := row])
    {
      var refused := TransfusionViolation(tables, row);
      if refused.Some? {
        return Failure(refused.value);
      }
      var id := UnusedId(tables.transfusions);
      InsertTransfusionExact(tables, id, row);
      tables := tables.(transfusions := tables.transfusions[id := row]);
      return Success(id);
    }

    method CreateClinicVisit(row: ClinicVisit) returns (result: Result<int, WriteError>)
      requires Valid()
      modifies this
      ensures Valid()
      ensures ClinicVisitViolation(old(tables), row).Some? ==>
                result == Failure(ClinicVisitViolation(old(tables), row).value) && tables == old(tables)
      ensures ClinicVisitViolation(old(tables), row).None? ==>
                && result.Success? && result.value !in old(tables.clinicVisits)
                && tables == old(tables).(clinicVisits := old(tables.clinicVisits)[result.value := row])
    {
      var refused := ClinicVisitViolation(tables, row);
      if refused.Some? {
        return Failure(refused.value);
      }
      var id := UnusedId(tables.clinicVisits);
      InsertClinicVisitExact(tables, id, row);
      tables := tables.(clinicVisits := tables.clinicVisits[id := row]);
      return Success(id);
    }

    /** Deletes a province with its districts and their divisions; units and clients in those divisions stay. */
    method DeleteProvince(id: int) returns (found: bool)
      requires Valid()
      modifies this
      ensures Valid()
      ensures found <==> id in old(tables.provinces)
      ensures tables == Store.DeleteProvince(old(tables), id)
      ensures !found ==> tables == old(tables)
    {
      found := id in tables.provinces;
      if !found {
        DeleteProvinceAbsent(tables, id);
        return;
      }
      DeleteProvinceConsistent(tables, id);
      var districtsGone := Referencing(tables.districts, (d: District) => d.province, {id});
      var divisionsGone := Referencing(tables.dsDivisions, (v: DsDivision) => v.district, districtsGone);
      tables := tables.(units := SetNull(tables.units, (u: ThalassemiaUnit) => u.dsDivision,
                                         (u: ThalassemiaUnit) => u.(dsDivision := None), divisionsGone));
      tables := tables.(clients := SetNull(tables.clients, (c: Client) => c.dsDivision,
                                           (c: Client) => c.(dsDivision := None), divisionsGone));
      tables := tables.(dsDivisions := tables.dsDivisions - divisionsGone);
      tables := tables.(districts := tables.districts - districtsGone);
      tables := tables.(provinces := tables.provinces - {id});
    }

    /** Deletes a district with its divisions; units and clients in those divisions stay. */
    method DeleteDistrict(id: int) returns (found: bool)
      requires Valid()
      modifies this
      ensures Valid()
      ensures found <==> id in old(tables.districts)
      ensures tables == Store.DeleteDistrict(old(tables), id)
      ensures !found ==> tables == old(tables)
    {
      found := id in tables.districts;
      if !found {
        DeleteDistrictAbsent(tables, id);
        return;
      }
      RemoveDistrictsConsistent(tables, {id});
      var divisionsGone := Referencing(tables.dsDivisions, (v: DsDivision) => v.district, {id});
      tables := tables.(units := SetNull(tables.units, (u: ThalassemiaUnit) => u.dsDivision,
                                         (u: ThalassemiaUnit) => u.(dsDivision := None), divisionsGone));
      tables := tables.(clients := SetNull(tables.clients, (c: Client) => c.dsDivision,
                                           (c: Client) => c.(dsDivision := None), divisionsGone));
      tables := tables.(dsDivisions := tables.dsDivisions - divisionsGone);
      tables := tables.(districts := tables.districts - {id});
    }

    /** Deletes a division; the units and clients in it stay, without a division. */
    method DeleteDsDivision(id: int) returns (found: bool)
      requires Valid()
      modifies this
      ensures Valid()
      ensures found <==> id in old(tables.dsDivisions)
      ensures tables == Store.DeleteDsDivision(old(tables), id)
      ensures !found ==> tables == old(tables)
    {
      found := id in tables.dsDivisions;
      if !found {
        DeleteDsDivisionAbsent(tables, id);
        return;
      }
      RemoveDivisionsConsistent(tables, {id});
      tables := tables.(units := SetNull(tables.units, (u: ThalassemiaUnit) => u.dsDivision,
                                         (u: ThalassemiaUnit) => u.(dsDivision := None), {id}));
      tables := tables.(clients := SetNull(tables.clients, (c: Client) => c.dsDivision,
                                           (c: Client) => c.(dsDivision := None), {id}));
      tables := tables.(dsDivisions := tables.dsDivisions - {id});
    }

    /** Deletes a treatment unit; its clients and the transfers to it stay, without the unit. */
    method DeleteThalassemiaUnit(id: int) returns (found: bool)
      requires Valid()
      modifies this
      ensures Valid()
      ensures found <==> id in old(tables.units)
      ensures tables == Store.DeleteThalassemiaUnit(old(tables), id)
      ensures !found ==> tables == old(tables)
    {
      found := id in tables.units;
      if !found {
        DeleteThalassemiaUnitAbsent(tables, id);
        return;
      }
      DeleteThalassemiaUnitConsistent(tables, id);
      tables := tables.(clients := SetNull(tables.clients, (c: Client) => c.unit, (c: Client) => c.(unit := None), {id}));
      tables := tables.(transfers := SetNull(tables.transfers, (t: ClientTransfer) => t.transferredUnit,
                                             (t: ClientTransfer) => t.(transferredUnit := None), {id}));
      tables := tables.(units := tables.units - {id});
    }

    /** Deletes a diagnosis type; the clients and family members with it stay, without a diagnosis. */
    method DeleteDiagnosisType(id: int) returns (found: bool)
      requires Valid()
      modifies this
      ensures Valid()
      ensures found <==> id in old(tables.diagnosisTypes)
      ensures tables == Store.DeleteDiagnosisType(old(tables), id)
      ensures !found ==> tables == old(tables)
    {
      found := id in tables.diagnosisTypes;
      if !found {
        DeleteDiagnosisTypeAbsent(tables, id);
        return;
      }
      DeleteDiagnosisTypeConsistent(tables, id);
      tables := tables.(clients := SetNull(tables.clients, (c: Client) => c.diagnosis,
                                           (c: Client) => c.(diagnosis := None), {id}));
      tables := tables.(familyMembers := SetNull(tables.familyMembers, (f: FamilyMember) => f.diagnosis,
                                                 (f: FamilyMember) => f.(diagnosis := None), {id}));
      tables := tables.(diagnosisTypes := tables.diagnosisTypes - {id});
    }

    /** Deletes a choice; every row that used it stays, with that field cleared. */
    method DeleteChoice(id: int) returns (found: bool)
      requires Valid()
      modifies this
      ensures Valid()
      ensures found <==> id in old(tables.choices)
      ensures tables == Store.DeleteChoice(old(tables), id)
      ensures !found ==> tables == old(tables)
    {
      found := id in tables.choices;
      if !found {
        DeleteChoiceAbsent(tables, id);
        return;
      }
      DeleteChoiceConsistent(tables, id);
      tables := tables.(clients := SetNull(tables.clients, (c: Client) => c.maritalStatus,
                                           (c: Client) => c.(maritalStatus := None), {id}));
      tables := tables.(complications := SetNull(tables.complications, (c: Complication) => c.status,
                                                 (c: Complication) => c.(status := None), {id}));
      tables := tables.(vaccinations := SetNull(tables.vaccinations, (v: Vaccination) => v.vaccineName,
                                                (v: Vaccination) => v.(vaccineName := None), {id}));
      tables := tables.(growthRecords := SetNull(tables.growthRecords, (g: GrowthRecord) => g.growthType,
                                                 (g: GrowthRecord) => g.(growthType := None), {id}));
      tables := tables.(transfusions := SetNull(tables.transfusions, (t: Transfusion) => t.specialType,
                                                (t: Transfusion) => t.(specialType := None), {id}));
      tables := tables.(clinicVisits := SetNull(tables.clinicVisits, (v: ClinicVisit) => v.clinicType,
                                                (v: ClinicVisit) => v.(clinicType := None), {id}));
      tables := tables.(choices := tables.choices - {id});
    }

    /** Deletes a drug name; its prescriptions stay, without a drug name. */
    method DeleteDrugName(id: int) returns (found: bool)
      requires Valid()
      modifies this
      ensures Valid()
      ensures found <==> id in old(tables.drugNames)
      ensures tables == Store.DeleteDrugName(old(tables), id)
      ensures !found ==> tables == old(tables)
    {
      found := id in tables.drugNames;
      if !found {
        DeleteDrugNameAbsent(tables, id);
        return;
      }
      DeleteDrugNameConsistent(tables, id);
      tables := tables.(drugs := SetNull(tables.drugs, (d: Drug) => d.drugName, (d: Drug) => d.(drugName := None), {id}));
      tables := tables.(drugNames := tables.drugNames - {id});
    }

    /** Deletes a complication type; the complications of that type stay, untyped. */
    method DeleteComplicationType(id: int) returns (found: bool)
      requires Valid()
      modifies this
      ensures Valid()
      ensures found <==> id in old(tables.complicationTypes)
      ensures tables == Store.DeleteComplicationType(old(tables), id)
      ensures !found ==> tables == old(tables)
    {
      found := id in tables.complicationTypes;
      if !found {
        DeleteComplicationTypeAbsent(tables, id);
        return;
      }
      DeleteComplicationTypeConsistent(tables, id);
      tables := tables.(complications := SetNull(tables.complications, (c: Complication) => c.complication,
                                                 (c: Complication) => c.(complication := None), {id}));
      tables := tables.(complicationTypes := tables.complicationTypes - {id});
    }

    /** Deletes an investigation type; the investigations of that type stay, untyped. */
    method DeleteInvestigationType(id: int) returns (found: bool)
      requires Valid()
      modifies this
      ensures Valid()
      ensures found <==> id in old(tables.investigationTypes)
      ensures tables == Store.DeleteInvestigationType(old(tables), id)
      ensures !found ==> tables == old(tables)
    {
      found := id in tables.investigationTypes;
      if !found {
        DeleteInvestigationTypeAbsent(tables, id);
        return;
      }
      DeleteInvestigationTypeConsistent(tables, id);
      tables := tables.(investigations := SetNull(tables.investigations, (i: Investigation) => i.investigationType,
                                                  (i: Investigation) => i.(investigationType := None), {id}));
      tables := tables.(investigationTypes := tables.investigationTypes - {id});
    }

    /** Deletes an admission with the transfusions given during it. */
    method DeleteAdmission(id: int) returns (found: bool)
      requires Valid()
      modifies this
      ensures Valid()
      ensures found <==> id in old(tables.admissions)
      ensures tables == Store.DeleteAdmission(old(tables), id)
      ensures !found ==> tables == old(tables)
    {
      found := id in tables.admissions;
      if !found {
        DeleteAdmissionAbsent(tables, id);
        return;
      }
      RemoveAdmissionsConsistent(tables, {id});
      tables := tables.(transfusions := Cascade(tables.transfusions, (t: Transfusion) => t.admission, {id}));
      tables := tables.(admissions := tables.admissions - {id});
    }

    /** Deletes a client with everything it owns, the transfusions of its admissions included. */
    method DeleteClient(id: int) returns (found: bool)
      requires Valid()
      modifies this
      ensures Valid()
      ensures found <==> id in old(tables.clients)
      ensures tables == Store.DeleteClient(old(tables), id)
      ensures !found ==> tables == old(tables)
    {
      found := id in tables.clients;
      if !found {
        DeleteClientAbsent(tables, id);
        return;
      }
      DeleteClientConsistent(tables, id);
      var admissionsGone := Referencing(tables.admissions, (a: Admission) => a.client, {id});
      tables := tables.(transfusions := Cascade(tables.transfusions, (t: Transfusion) => t.admission, admissionsGone));
      tables := tables.(admissions := tables.admissions - admissionsGone);
      tables := tables.(deaths := Cascade(tables.deaths, (d: ClientDeath) => d.client, {id}));
      tables := tables.(transfers := Cascade(tables.transfers, (t: ClientTransfer) => t.client, {id}));
      tables := tables.(familyMembers := Cascade(tables.familyMembers, (f: FamilyMember) => f.client, {id}));
      tables := tables.(drugs := Cascade(tables.drugs, (d: Drug) => d.client, {id}));
      tables := tables.(complications := Cascade(tables.complications, (c: Complication) => c.client, {id}));
      tables := tables.(vaccinations := Cascade(tables.vaccinations, (v: Vaccination) => v.client, {id}));
      tables := tables.(investigations := Cascade(tables.investigations, (i: Investigation) => i.client, {id}));
      tables := tables.(growthRecords := Cascade(tables.growthRecords, (g: GrowthRecord) => g.client, {id}));
      tables := tables.(clinicVisits := Cascade(tables.clinicVisits, (v: ClinicVisit) => v.client, {id}));
      tables := tables.(clients := tables.clients - {id});
    }

    /** Deletes one death record; no row refers to it, so no other table changes. */
    method DeleteClientDeath(id: int) returns (found: bool)
      requires Valid()
      modifies this
      ensures Valid()
      ensures found <==> id in old(tables.deaths)
      ensures tables == old(tables).(deaths := old(tables.deaths) - {id})
      ensures !found ==> tables == old(tables)
    {
      found := id in tables.deaths;
      if !found {
        RemoveAbsent(tables.deaths, id);
        return;
      }
      tables := tables.(deaths := tables.deaths - {id});
    }

    /** Deletes one transfer record; no row refers to it, so no other table changes. */
    method DeleteClientTransfer(id: int) returns (found: bool)
      requires Valid()
      modifies this
      ensures Valid()
      ensures found <==> id in old(tables.transfers)
      ensures tables == old(tables).(transfers := old(tables.transfers) - {id})
      ensures !found ==> tables == old(tables)
    {
      found := id in tables.transfers;
      if !found {
        RemoveAbsent(tables.transfers, id);
        return;
      }
      tables := tables.(transfers := tables.transfers - {id});
    }

    /** Deletes one family member; no row refers to it, so no other table changes. */
    method DeleteFamilyMember(id: int) returns (found: bool)
      requires Valid()
      modifies this
      ensures Valid()
      ensures found <==> id in old(tables.familyMembers)
      ensures tables == old(tables).(familyMembers := old(tables.familyMembers) - {id})
      ensures !found ==> tables == old(tables)
    {
      found := id in tables.familyMembers;
      if !found {
        RemoveAbsent(tables.familyMembers, id);
        return;
      }
      tables := tables.(familyMembers := tables.familyMembers - {id});
    }

    /** Deletes one prescription; no row refers to it, so no other table changes. */
    method DeleteDrug(id: int) returns (found: bool)
      requires Valid()
      modifies this
      ensures Valid()
      ensures found <==> id in old(tables.drugs)
      ensures tables == old(tables).(drugs := old(tables.drugs) - {id})
      ensures !found ==> tables == old(tables)
    {
      found := id in tables.drugs;
      if !found {
        RemoveAbsent(tables.drugs, id);
        return;
      }
      tables := tables.(drugs := tables.drugs - {id});
    }

    /** Deletes one complication; no row refers to it, so no other table changes. */
    method DeleteComplication(id: int) returns (found: bool)
      requires Valid()
      modifies this
      ensures Valid()
      ensures found <==> id in old(tables.complications)
      ensures tables == old(tables).(complications := old(tables.complications) - {id})
      ensures !found ==> tables == old(tables)
    {
      found := id in tables.complications;
      if !found {
        RemoveAbsent(tables.complications, id);
        return;
      }
      tables := tables.(complications := tables.complications - {id});
    }

    /** Deletes one vaccination; no row refers to it, so no other table changes. */
    method DeleteVaccination(id: int) returns (found: bool)
      requires Valid()
      modifies this
      ensures Valid()
      ensures found <==> id in old(tables.vaccinations)
      ensures tables == old(tables).(vaccinations := old(tables.vaccinations) - {id})
      ensures !found ==> tables == old(tables)
    {
      found := id in tables.vaccinations;
      if !found {
        RemoveAbsent(tables.vaccinations, id);
        return;
      }
      tables := tables.(vaccinations := tables.vaccinations - {id});
    }

    /** Deletes one investigation; no row refers to it, so no other table changes. */
    method DeleteInvestigation(id: int) returns (found: bool)
      requires Valid()
      modifies this
      ensures Valid()
      ensures found <==> id in old(tables.investigations)
      ensures tables == old(tables).(investigations := old(tables.investigations) - {id})
      ensures !found ==> tables == old(tables)
    {
      found := id in tables.investigations;
      if !found {
        RemoveAbsent(tables.investigations, id);
        return;
      }
      tables := tables.(investigations := tables.investigations - {id});
    }

    /** Deletes one growth record; no row refers to it, so no other table changes. */
    method DeleteGrowthRecord(id: int) returns (found: bool)
      requires Valid()
      modifies this
      ensures Valid()
      ensures found <==> id in old(tables.growthRecords)
      ensures tables == old(tables).(growthRecords := old(tables.growthRecords) - {id})
      ensures !found ==> tables == old(tables)
    {
      found := id in tables.growthRecords;
      if !found {
        RemoveAbsent(tables.growthRecords, id);
        return;
      }
      tables := tables.(growthRecords := tables.growthRecords - {id});
    }

    /** Deletes one transfusion; no row refers to it, so no other table changes. */
    method DeleteTransfusion(id: int) returns (found: bool)
      requires Valid()
      modifies this
      ensures Valid()
      ensures found <==> id in old(tables.transfusions)
      ensures tables == old(tables).(transfusions := old(tables.transfusions) - {id})
      ensures !found ==> tables == old(tables)
    {
      found := id in tables.transfusions;
      if !found {
        RemoveAbsent(tables.transfusions, id);
        return;
      }
      tables := tables.(transfusions := tables.transfusions - {id});
    }

    /** Deletes one clinic visit; no row refers to it, so no other table changes. */
    method DeleteClinicVisit(id: int) returns (found: bool)
      requires Valid()
      modifies this
      ensures Valid()
      ensures found <==> id in old(tables.clinicVisits)
      ensures tables == old(tables).(clinicVisits := old(tables.clinicVisits) - {id})
      ensures !found ==> tables == old(tables)
    {
      found := id in tables.clinicVisits;
      if !found {
        RemoveAbsent(tables.clinicVisits, id);
        return;
      }
      tables := tables.(clinicVisits := tables.clinicVisits - {id});
    }
  }
}
