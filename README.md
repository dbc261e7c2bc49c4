# Thalassaemia patient registry — the data model and its integrity rules

The registry records patients with thalassaemia and everything the clinic keeps about them:

- master lists: the generic `Choice` vocabulary, the geography Province > District > DS Division, treatment units, diagnosis types, drug names, complication types and investigation types;
- the patient (`Client`) and its satellite records: death record, transfer record, family members, prescriptions, complications, vaccinations, investigations, growth records, clinic visits, and hospital admissions with the blood transfusions given during them.

The program's behaviour is declarative. The field declarations say which columns are UNIQUE, which are foreign keys, and what happens to the rows referring to a deleted row: ON DELETE CASCADE or ON DELETE SET NULL. The store and the framework carry these out. This project states that behaviour exactly and proves it.

The model has two layers, kept apart as the framework keeps them:

- **Write-time rules** are enforced by the database on every write: UNIQUE columns and foreign keys that must name an existing row. `Store.Consistent` is this invariant. Every `Create` method of `Registry.Registry` checks the row against it. The method either refuses the write with a `WriteError`, leaving every table unchanged, or inserts the row under a fresh primary key. `Store.InsertXExact` proves, for each table X, that the check is exact: the insert keeps the store consistent exactly when the check finds nothing.
- **Validation-time rules** are applied only by model validation (`full_clean`). They cover fields that may not be blank, fields restricted by `choices`, foreign keys, whose value must name a row on record (each `Valid*` predicate takes the ids of the tables it refers to), and Choice references restricted by `limit_choices_to` to one category. These are the `Valid*` predicates beside each record type. They do not guard the store: a row that fails validation can still be written, exactly as in the program.

Each delete is a pure function of the tables in `Store`, giving the state the framework's delete collector leaves behind:

- owned rows are removed transitively, for example Province → District → DS Division and Client → Admission → Transfusion;
- SET NULL columns are cleared;
- the row itself goes.

For each delete, two lemmas are proved:

- it preserves referential integrity and the UNIQUE columns;
- it removes exactly the owned rows, clears exactly the matching field, and changes no other table.

`Registry.Registry` is the database as the application holds it. The object has one field, `tables`, holding all twenty-one tables as maps from primary key to row. Each method updates those tables one at a time and ends in the state the Store function names, with the invariant kept.

Listings follow each model's declared ordering (by name, or by full name for clients). `Clients.Age` is the patient's `age` property, with the current day passed in as `asOf`.

Modules, one file each:

- `wrappers.dfy`: `Option` and `Result`;
- `calendar.dfy`: dates as Python's `date` holds them;
- `tables.dfy`: the generic meaning of foreign keys, UNIQUE, CASCADE and SET NULL over `map<int, R>`, and fresh primary keys;
- `ordering.dfy`: code-point order on names and sorting a table by name;
- `lookup.dfy`, `client.dfy`, `drug.dfy`, `management.dfy`: one module per model file;
- `store.dfy`: the database value, its invariant, inserts and deletes;
- `registry.dfy`: the stateful registry.

## Model

| member | source | states |
|---|---|---|
| `Lookup.CategoriesAreSeven` | clients/models/lookup.py:14-23 | the Choice category list has exactly seven stored values |
| `Lookup.NamesSharedAcrossCategories` | clients/models/lookup.py:23-24 | Choice names are not unique: the same name is a valid Choice under two categories |
| `Lookup.ScopedChoiceExact` | clients/models/management.py:37-42 | a reference restricted to a category accepts an existing Choice exactly when the Choice has that category |
| `Lookup.ProvincesByName` | clients/models/lookup.py:40-41 | the province listing holds every row once, with its own id, ordered by name |
| `Lookup.DistrictsByName` | clients/models/lookup.py:55-56 | the district listing holds every row once, ordered by name |
| `Lookup.DsDivisionsByName` | clients/models/lookup.py:67-68 | the DS division listing holds every row once, ordered by name |
| `Lookup.DiagnosisTypesByName` | clients/models/lookup.py:99-100 | the diagnosis type listing holds every row once, ordered by name |
| `Clients.NewClient` | clients/models/client.py:39-53 | a client created with only a registration number and a full name has no unit, diagnosis, marital status or division, and fails validation against any tables because `gender` is blank |
| `Clients.ClientErrors` | clients/models/client.py:39-66 | validation reports no error exactly when the client is valid; it reports `full_name` exactly when the name is blank, `gender` exactly when it is not "M" or "F", `registration_number` exactly when it is blank, and `unit`, `diagnosis` and `ds_division` exactly when the field is set to an id not on record |
| `Clients.MaritalStatusScoped` | clients/models/client.py:56-63 | in a valid client a set marital status names an existing Choice of category "marital_status" |
| `Clients.AgeIsLastAnniversary` | clients/models/client.py:89-97 | with a birth date, the age is `n` exactly when the `n`-th birthday is on or before `asOf` and the `(n+1)`-th is after it |
| `Clients.AgeUnknownWithoutBirthDate` | clients/models/client.py:90-91 | without a birth date there is no age |
| `Clients.AgeOnAnniversary` | clients/models/client.py:93-97 | on a birthday the age is the difference of the years |
| `Clients.AgeMonotonic` | clients/models/client.py:89-97 | the age never decreases as `asOf` moves forward |
| `Clients.AgeNonNegative` | clients/models/client.py:89-97 | from the day of birth on the age is at least zero |
| `Clients.AgeExamples` | clients/models/client.py:93-96 | the year difference is reduced by one the day before the birthday, and not on the birthday |
| `Clients.LabelDeterminesClient` | clients/models/client.py:82-83 | when neither registration number contains a colon, two clients with the same text have the same registration number and the same full name |
| `Clients.LabelsCanCollide` | clients/models/client.py:82-83 | without that condition the text is ambiguous: registration number "A : B" with name "C" and registration number "A" with name "B : C" give the same text |
| `Clients.LabelExample` | clients/models/client.py:82-83 | the label of client T-525 John Silva is "T-525 : John Silva" |
| `Clients.ClientsByName` | clients/models/client.py:119-120 | the client listing holds every row once, ordered by full name |
| `Clients.NewFamilyMember` | clients/models/client.py:165-180 | a family member created with a client and a name has relationship "Other", is not a carrier, has no birth day, diagnosis, `pt_id` or contact number, and is valid exactly when its client is on record and the name is non-blank |
| `Drugs.DrugOptionalFields` | clients/models/drug.py:25-31 | indication and prescriber never decide whether a prescription is valid |
| `Drugs.DrugNamesByName` | clients/models/drug.py:17-18 | the drug name listing holds every row once, ordered by name |
| `Management.ChoiceReferencesRequired` | clients/models/management.py:113-118 | only a transfusion's special type may be left empty; an empty complication status, vaccine, growth type or clinic type fails validation, while a transfusion without special type (or an investigation without type) is valid exactly when its admission (or client) is on record |
| `Management.WrongCategoryRejected` | clients/models/management.py:37-42 | a vaccine that names a Choice of another category fails validation |
| `Management.NewAdmission` | clients/models/management.py:92-96 | a new admission's reason is "Blood Transfusion", it has no discharge and no outcome, and it is valid exactly when its client is on record |
| `Management.NewTransfusion` | clients/models/management.py:106-120 | a new transfusion keeps Hb at 9.0 (90 tenths), its reaction is "None", its special type is empty, and it is valid exactly when its admission is on record |
| `Management.NewClinicVisit` | clients/models/management.py:131-144 | a new clinic visit needs no follow-up and, with no clinic type, fails validation against any tables |
| `Store.EmptyConsistent` | clients/models/lookup.py:30-35 | the empty database satisfies referential integrity and every UNIQUE column |
| `Store.RemoveDivisionsConsistent` | clients/models/lookup.py:81 | deleting divisions (clearing units' and clients' `ds_division`) keeps the store consistent |
| `Store.RemoveDistrictsConsistent` | clients/models/lookup.py:65 | deleting districts together with their divisions keeps the store consistent |
| `Store.DeleteProvinceConsistent` | clients/models/lookup.py:50 | deleting a province with its districts and their divisions keeps the store consistent |
| `Store.DeleteThalassemiaUnitConsistent` | clients/models/client.py:50 | deleting a unit keeps the store consistent |
| `Store.DeleteDiagnosisTypeConsistent` | clients/models/client.py:51-53 | deleting a diagnosis type keeps the store consistent |
| `Store.DeleteChoiceConsistent` | clients/models/client.py:56-63 | deleting a choice keeps the store consistent |
| `Store.DeleteDrugNameConsistent` | clients/models/drug.py:26 | deleting a drug name keeps the store consistent |
| `Store.DeleteComplicationTypeConsistent` | clients/models/management.py:19 | deleting a complication type keeps the store consistent |
| `Store.DeleteInvestigationTypeConsistent` | clients/models/management.py:67 | deleting an investigation type keeps the store consistent |
| `Store.RemoveAdmissionsConsistent` | clients/models/management.py:106 | deleting admissions with their transfusions keeps the store consistent |
| `Store.DeleteClientConsistent` | clients/models/management.py:92 | deleting a client with everything it owns keeps the store consistent |
| `Store.DeleteProvinceEffect` | clients/models/lookup.py:50 | deleting a province removes it and no other province, removes exactly the districts of it and exactly the divisions of those districts, keeping every other row as it was, and changes no table besides those and units and clients |
| `Store.DeleteProvinceKeepsLocatedRows` | clients/models/lookup.py:81 | after a province delete every unit and client survives; exactly those in a removed division have `ds_division` cleared, the rest are unchanged |
| `Store.DeleteDistrictEffect` | clients/models/lookup.py:65 | deleting a district removes it and exactly its divisions; units and clients in those divisions survive with only `ds_division` cleared; no other table changes |
| `Store.DeleteDsDivisionEffect` | clients/models/lookup.py:81 | deleting a division keeps every unit and client, clearing `ds_division` exactly where it named the division; no other table changes |
| `Store.DeleteThalassemiaUnitEffect` | clients/models/client.py:146-151 | deleting a unit keeps every client and transfer, clearing `unit` and `transferred_unit` exactly where they named it; no other table changes |
| `Store.DeleteDiagnosisTypeEffect` | clients/models/client.py:178 | deleting a diagnosis type keeps every client and family member, clearing `diagnosis` exactly where it named it; no other table changes |
| `Store.DeleteChoiceEffect` | clients/models/management.py:134-139 | deleting a choice keeps every row of the six referring tables, clearing exactly the referring field where it named the choice; no other table changes |
| `Store.DeleteDrugNameEffect` | clients/models/drug.py:26-29 | deleting a drug name keeps every prescription, clearing `drug_name` exactly where it named it; client, dose, regimen and duration are unchanged |
| `Store.DeleteComplicationTypeEffect` | clients/models/management.py:19 | deleting a complication type keeps every complication, clearing its type exactly where it named it |
| `Store.DeleteInvestigationTypeEffect` | clients/models/management.py:67 | deleting an investigation type keeps every investigation, clearing its type exactly where it named it |
| `Store.DeleteAdmissionEffect` | clients/models/management.py:106 | deleting an admission removes it and exactly its transfusions, and changes no other table |
| `Store.DeleteClientRecordsEffect` | clients/models/client.py:129 | deleting a client removes it and exactly its death record, transfer record and family members; other clients' family members stay as they were, whatever their `pt_id`; the master lists are unchanged |
| `Store.DeleteClientDrugsEffect` | clients/models/drug.py:24 | deleting a client removes exactly its own prescriptions and leaves every other prescription as it was |
| `Store.DeleteClientClinicalEffect` | clients/models/management.py:18 | deleting a client removes exactly its complications, vaccinations, investigations, growth records and clinic visits |
| `Store.DeleteClientAdmissionsEffect` | clients/models/management.py:92 | deleting a client removes exactly its admissions and exactly the transfusions given during them |
| `Store.DeleteProvinceAbsent` | clients/models/lookup.py:50 | in a consistent store, deleting a province id that is not on record changes nothing: no row refers to it, so no referential action fires |
| `Store.DeleteDistrictAbsent` | clients/models/lookup.py:65 | in a consistent store, deleting a district id that is not on record changes nothing: no row refers to it, so no referential action fires |
| `Store.DeleteDsDivisionAbsent` | clients/models/lookup.py:81 | in a consistent store, deleting a division id that is not on record changes nothing: no row refers to it, so no referential action fires |
| `Store.DeleteThalassemiaUnitAbsent` | clients/models/client.py:50 | in a consistent store, deleting a unit id that is not on record changes nothing: no row refers to it, so no referential action fires |
| `Store.DeleteDiagnosisTypeAbsent` | clients/models/client.py:51-53 | in a consistent store, deleting a diagnosis type id that is not on record changes nothing: no row refers to it, so no referential action fires |
| `Store.DeleteChoiceAbsent` | clients/models/management.py:113-118 | in a consistent store, deleting a choice id that is not on record changes nothing: no row refers to it, so no referential action fires |
| `Store.DeleteDrugNameAbsent` | clients/models/drug.py:26 | in a consistent store, deleting a drug name id that is not on record changes nothing: no row refers to it, so no referential action fires |
| `Store.DeleteComplicationTypeAbsent` | clients/models/management.py:19 | in a consistent store, deleting a complication type id that is not on record changes nothing: no row refers to it, so no referential action fires |
| `Store.DeleteInvestigationTypeAbsent` | clients/models/management.py:67 | in a consistent store, deleting an investigation type id that is not on record changes nothing: no row refers to it, so no referential action fires |
| `Store.DeleteAdmissionAbsent` | clients/models/management.py:106 | in a consistent store, deleting an admission id that is not on record changes nothing: no row refers to it, so no referential action fires |
| `Store.DeleteClientAbsent` | clients/models/management.py:92 | in a consistent store, deleting a client id that is not on record changes nothing: no row refers to it, so no referential action fires |
| `Store.TransfusionHasClient` | clients/models/management.py:105-106 | in a consistent store every transfusion's admission exists, and its client, the transfusion's patient, is on record |
| `Store.NoTransfusionOutlivesClient` | clients/models/management.py:124-125 | after a client is deleted, no remaining transfusion has that client as its patient |
| `Store.AtMostOneDeathAndTransfer` | clients/models/client.py:145 | in a consistent store a client has at most one death record and at most one transfer record |
| `Store.InsertProvinceExact` | clients/models/lookup.py:35 | inserting a province keeps the store consistent exactly when the write check finds no violation |
| `Store.InsertDistrictExact` | clients/models/lookup.py:49-50 | inserting a district keeps the store consistent exactly when its name is free and its province exists |
| `Store.InsertDsDivisionExact` | clients/models/lookup.py:64-65 | inserting a division keeps the store consistent exactly when its name is free and its district exists |
| `Store.InsertThalassemiaUnitExact` | clients/models/lookup.py:79-81 | inserting a unit keeps the store consistent exactly when its name is free and its division is null or exists |
| `Store.InsertDiagnosisTypeExact` | clients/models/lookup.py:92 | inserting a diagnosis type keeps the store consistent exactly when its name is free |
| `Store.InsertClientExact` | clients/models/client.py:48 | inserting a client keeps the store consistent exactly when its registration number is free, its set NIC number is free, and its four references are null or exist |
| `Store.InsertClientDeathExact` | clients/models/client.py:129 | inserting a death record keeps the store consistent exactly when its client exists and has none yet |
| `Store.InsertClientTransferExact` | clients/models/client.py:145-151 | inserting a transfer record keeps the store consistent exactly when its client exists and has none yet, and its unit is null or exists |
| `Store.InsertFamilyMemberExact` | clients/models/client.py:165-178 | inserting a family member keeps the store consistent exactly when its client exists and its diagnosis is null or exists |
| `Store.InsertDrugNameExact` | clients/models/drug.py:10 | inserting a drug name keeps the store consistent exactly when its name is free |
| `Store.InsertDrugExact` | clients/models/drug.py:24-26 | inserting a prescription keeps the store consistent exactly when its client exists and its drug name is null or exists |
| `Store.InsertComplicationTypeExact` | clients/models/management.py:8 | inserting a complication type keeps the store consistent exactly when its name is free |
| `Store.InsertComplicationExact` | clients/models/management.py:18-26 | inserting a complication keeps the store consistent exactly when its client exists and its type and status are null or exist |
| `Store.InsertVaccinationExact` | clients/models/management.py:36-42 | inserting a vaccination keeps the store consistent exactly when its client exists and its vaccine is null or exists |
| `Store.InsertInvestigationTypeExact` | clients/models/management.py:54 | inserting an investigation type keeps the store consistent exactly when its name is free |
| `Store.InsertInvestigationExact` | clients/models/management.py:65-67 | inserting an investigation keeps the store consistent exactly when its client exists and its type is null or exists |
| `Store.InsertGrowthRecordExact` | clients/models/management.py:79-81 | inserting a growth record keeps the store consistent exactly when its client exists and its type is null or exists |
| `Store.InsertAdmissionExact` | clients/models/management.py:92 | inserting an admission keeps the store consistent exactly when its client exists |
| `Store.InsertTransfusionExact` | clients/models/management.py:106-118 | inserting a transfusion keeps the store consistent exactly when its admission exists and its special type is null or exists |
| `Store.InsertClinicVisitExact` | clients/models/management.py:131-139 | inserting a clinic visit keeps the store consistent exactly when its client exists and its clinic type is null or exists |
| `Store.InsertChoiceConsistent` | clients/models/lookup.py:23-24 | inserting a choice never breaks the store: neither its category nor its name is a UNIQUE column |
| `Store.DuplicateNamesRefused` | clients/models/lookup.py:49 | a row whose name is already on record in its master list (province, district, division, unit, diagnosis type, drug name, complication type, investigation type) is refused on `name` |
| `Store.DuplicateClientRefused` | clients/models/client.py:45-48 | a client repeating a registration number on record is refused on `registration_number`; one repeating a set NIC number is refused on a UNIQUE column |
| `Store.NullNicNumbersNeverClash` | clients/models/client.py:45 | a client without a NIC number is never refused on `nic_number`, and adding it keeps the NIC column unique, however many clients lack one |
| `Store.SecondDeathOrTransferRefused` | clients/models/client.py:129 | a second death record or a second transfer record for a client is refused on `client` |
| `Store.DistinctClientsDistinctLabels` | clients/models/client.py:48 | because registration numbers are UNIQUE, two clients on record whose registration numbers contain no colon have different texts |
| `Store.ValidLocationsPassForeignKeys` | clients/models/lookup.py:49-81 | a district, division or unit that passes validation against the tables on record is never refused on a foreign key |
| `Store.ValidClientRowsPassForeignKeys` | clients/models/client.py:50-178 | a client, death record, transfer record or family member that passes validation against the tables on record is never refused on a foreign key; a transfer passes validation only with a unit on record |
| `Store.ValidClinicalRowsPassForeignKeys` | clients/models/management.py:18-139 | a prescription, complication, vaccination, investigation, growth record, admission, transfusion or clinic visit that passes validation against the tables on record is never refused on a foreign key |
| `Registry.Registry.constructor` | clients/models/lookup.py:30-35 | a new registry has every table empty and satisfies the invariant |
| `Registry.Registry.CreateChoice` | clients/models/lookup.py:4-24 | a choice is always inserted under a fresh id; nothing else changes |
| `Registry.Registry.CreateProvince` | clients/models/lookup.py:35 | a province whose name is taken is refused with every table unchanged; otherwise it is inserted under a fresh id and nothing else changes; the invariant holds |
| `Registry.Registry.CreateDistrict` | clients/models/lookup.py:49-50 | a district with a taken name or a missing province is refused with every table unchanged; otherwise it is inserted under a fresh id |
| `Registry.Registry.CreateDsDivision` | clients/models/lookup.py:64-65 | a division with a taken name or a missing district is refused unchanged; otherwise it is inserted under a fresh id |
| `Registry.Registry.CreateThalassemiaUnit` | clients/models/lookup.py:79-81 | a unit with a taken name or a missing division is refused unchanged; otherwise it is inserted under a fresh id |
| `Registry.Registry.CreateDiagnosisType` | clients/models/lookup.py:92 | a diagnosis type whose name is taken is refused unchanged; otherwise it is inserted under a fresh id |
| `Registry.Registry.CreateClient` | clients/models/client.py:45-66 | a client repeating a registration number or a set NIC number, or naming a missing unit, diagnosis, marital status or division, is refused with every table unchanged; otherwise it is inserted under a fresh id |
| `Registry.Registry.CreateClientDeath` | clients/models/client.py:129 | a death record for a missing client, or for a client that has one, is refused unchanged; otherwise it is inserted |
| `Registry.Registry.CreateClientTransfer` | clients/models/client.py:145-151 | a transfer record for a missing client or one that has a transfer, or to a missing unit, is refused unchanged; otherwise it is inserted |
| `Registry.Registry.CreateFamilyMember` | clients/models/client.py:165-178 | a family member of a missing client or with a missing diagnosis is refused unchanged; otherwise it is inserted |
| `Registry.Registry.CreateDrugName` | clients/models/drug.py:10 | a drug name whose name is taken is refused unchanged; otherwise it is inserted |
| `Registry.Registry.CreateDrug` | clients/models/drug.py:24-26 | a prescription for a missing client or drug name is refused unchanged; otherwise it is inserted |
| `Registry.Registry.CreateComplicationType` | clients/models/management.py:8 | a complication type whose name is taken is refused unchanged; otherwise it is inserted |
| `Registry.Registry.CreateComplication` | clients/models/management.py:18-26 | a complication naming a missing client, type or status is refused unchanged; otherwise it is inserted |
| `Registry.Registry.CreateVaccination` | clients/models/management.py:36-42 | a vaccination naming a missing client or vaccine is refused unchanged; otherwise it is inserted |
| `Registry.Registry.CreateInvestigationType` | clients/models/management.py:54 | an investigation type whose name is taken is refused unchanged; otherwise it is inserted |
| `Registry.Registry.CreateInvestigation` | clients/models/management.py:65-67 | an investigation naming a missing client or type is refused unchanged; otherwise it is inserted |
| `Registry.Registry.CreateGrowthRecord` | clients/models/management.py:79-81 | a growth record naming a missing client or type is refused unchanged; otherwise it is inserted |
| `Registry.Registry.CreateAdmission` | clients/models/management.py:92 | an admission of a missing client is refused unchanged; otherwise it is inserted |
| `Registry.Registry.CreateTransfusion` | clients/models/management.py:106-118 | a transfusion naming a missing admission or special type is refused unchanged; otherwise it is inserted |
| `Registry.Registry.CreateClinicVisit` | clients/models/management.py:131-139 | a clinic visit naming a missing client or clinic type is refused unchanged; otherwise it is inserted |
| `Registry.Registry.DeleteProvince` | clients/models/lookup.py:50 | reports whether the province existed and leaves the tables as `Store.DeleteProvince` gives them, the invariant kept; an absent id leaves every table unchanged |
| `Registry.Registry.DeleteDistrict` | clients/models/lookup.py:65 | reports whether the district existed and leaves the tables as `Store.DeleteDistrict` gives them, the invariant kept; an absent id leaves every table unchanged |
| `Registry.Registry.DeleteDsDivision` | clients/models/lookup.py:81 | reports whether the division existed and leaves the tables as `Store.DeleteDsDivision` gives them, the invariant kept; an absent id leaves every table unchanged |
| `Registry.Registry.DeleteThalassemiaUnit` | clients/models/client.py:50 | reports whether the unit existed and leaves the tables as `Store.DeleteThalassemiaUnit` gives them, the invariant kept; an absent id leaves every table unchanged |
| `Registry.Registry.DeleteDiagnosisType` | clients/models/client.py:51-53 | reports whether the diagnosis type existed and leaves the tables as `Store.DeleteDiagnosisType` gives them, the invariant kept; an absent id leaves every table unchanged |
| `Registry.Registry.DeleteChoice` | clients/models/management.py:113-118 | reports whether the choice existed and leaves the tables as `Store.DeleteChoice` gives them, the invariant kept; an absent id leaves every table unchanged |
| `Registry.Registry.DeleteDrugName` | clients/models/drug.py:26 | reports whether the drug name existed and leaves the tables as `Store.DeleteDrugName` gives them, the invariant kept; an absent id leaves every table unchanged |
| `Registry.Registry.DeleteComplicationType` | clients/models/management.py:19 | reports whether the type existed and leaves the tables as `Store.DeleteComplicationType` gives them, the invariant kept; an absent id leaves every table unchanged |
| `Registry.Registry.DeleteInvestigationType` | clients/models/management.py:67 | reports whether the type existed and leaves the tables as `Store.DeleteInvestigationType` gives them, the invariant kept; an absent id leaves every table unchanged |
| `Registry.Registry.DeleteAdmission` | clients/models/management.py:106 | reports whether the admission existed and leaves the tables as `Store.DeleteAdmission` gives them, the invariant kept; an absent id leaves every table unchanged |
| `Registry.Registry.DeleteClient` | clients/models/management.py:92 | reports whether the client existed and leaves the tables as `Store.DeleteClient` gives them, the invariant kept; an absent id leaves every table unchanged |
| `Registry.Registry.DeleteClientDeath` | clients/models/client.py:126-133 | removes the one death record; no row refers to it, so nothing else changes; an absent id leaves every table unchanged |
| `Registry.Registry.DeleteClientTransfer` | clients/models/client.py:142-153 | removes the one transfer record and nothing else; an absent id leaves every table unchanged |
| `Registry.Registry.DeleteFamilyMember` | clients/models/client.py:162-181 | removes the one family member and nothing else; an absent id leaves every table unchanged |
| `Registry.Registry.DeleteDrug` | clients/models/drug.py:21-31 | removes the one prescription and nothing else; an absent id leaves every table unchanged |
| `Registry.Registry.DeleteComplication` | clients/models/management.py:15-27 | removes the one complication and nothing else; an absent id leaves every table unchanged |
| `Registry.Registry.DeleteVaccination` | clients/models/management.py:33-45 | removes the one vaccination and nothing else; an absent id leaves every table unchanged |
| `Registry.Registry.DeleteInvestigation` | clients/models/management.py:62-70 | removes the one investigation and nothing else; an absent id leaves every table unchanged |
| `Registry.Registry.DeleteGrowthRecord` | clients/models/management.py:76-83 | removes the one growth record and nothing else; an absent id leaves every table unchanged |
| `Registry.Registry.DeleteTransfusion` | clients/models/management.py:102-122 | removes the one transfusion and nothing else; an absent id leaves every table unchanged |
| `Registry.Registry.DeleteClinicVisit` | clients/models/management.py:128-144 | removes the one clinic visit and nothing else; an absent id leaves every table unchanged |

## Left out

- `precise_age` and `age_string` (clients/models/client.py:99-117) compute through an external date-difference library and the local time zone. Neither is part of this model. Only `age` is modelled.
- `Clients.Age` has no contract of its own. Its properties are the lemmas about it listed above. `date.today()` becomes the parameter `asOf`.
- The backup schema `clients/models_bac.py` is an older copy that the application does not import. It is not modelled.
- Views, URLs, the admin site and the user accounts are request handling around the models, with no rule of their own. The seed script `thallk/add_data.py` and the settings are configuration and database I/O.
- Transactions, isolation and races between concurrent writers are out. Every operation here is one atomic step on a single store.
- `max_length`, `max_digits` and `decimal_places` limits, e-mail address syntax and image uploads are out. A photo is kept as its stored path. Decimals are integers scaled by their declared places: Hb levels in tenths, growth values in hundredths.
- `get_absolute_url` (URL reversal) and the text of the models other than `Client` are out. So are the display labels of the `choices` lists; only the stored values are modelled.
- Name order is code-point order on the names. The database's collation (case or accent folding) is not modelled. The order among rows with equal names is left open: the listing promises only that names never decrease.
- `Clients.ClientErrors`: the client form (clients/form.py:5-9) strips surrounding whitespace from text inputs before validating, so a whitespace-only `full_name` or `registration_number` is a form error that `ClientErrors`, which follows `full_clean`, does not report. The form is not modelled.
- Validation also re-checks UNIQUE columns (`validate_unique`). Here uniqueness lives only in the write-time layer (`Store.Consistent`), not in the `Valid*` predicates.
- Updates of existing rows (`save()` on a fetched row) are not modelled. Only creating and deleting rows are.
- Fields declared without `null=True` are never NULL in the model. Required dates have type `Date`, non-null foreign keys type `int`, and required text type `string`. The store therefore cannot hold NULL in those columns, whereas the program would get an integrity error from the database.
- A new primary key is one more than the largest key in the table (`Tables.UnusedId`). The database also remembers the largest key it ever issued, so a key freed by a delete is never issued again. The model keeps no such counter and promises only a key that is unused and above every key present.
- `Registry.Registry.CreateChoice`: the `category` choices and the non-blank `name` are validation-time rules (`Lookup.ValidChoice`), so the store accepts any choice, as the program's database does.
