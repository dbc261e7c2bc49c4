/**
 * Master lists of the registry (clients/models/lookup.py): the generic category-tagged Choice
 * vocabulary, the geographic hierarchy Province > District > DS Division, treatment units and
 * diagnosis types.
 */
module Lookup {
  import opened Wrappers
  import Tables
  import Ordering

  // ---------------------------------------------------------------- Choice

  const ClinicType := "clinic_type"
  const MaritalStatus := "marital_status"
  const CurrentStatus := "current_status"
  const ComplicationStatus := "complication_status"
  const VaccineName := "vaccine_name"
  const SpecialBloodType := "special_blood_type"
  const Growth := "growth"

  /** The stored values of `Choice.CATEGORY_CHOICES`. */
  const Categories: set<string> :=
    {ClinicType, MaritalStatus, CurrentStatus, ComplicationStatus, VaccineName, SpecialBloodType, Growth}

  /** One word of a controlled vocabulary; `name` is not unique, only meaningful within its category. */
  datatype Choice = Choice(category: string, name: string)

  /** Validation of a Choice: a category from the list and a non-blank name. */
  predicate ValidChoice(c: Choice) {
    c.category in Categories && c.name != ""
  }

  lemma CategoriesAreSeven()
    ensures |Categories| == 7
  {
  }

  /**
   * Validation of a foreign key to Choice declared with `limit_choices_to={"category": category}`:
   * NULL is accepted only when the field is `blank=True`; otherwise the key must name an existing
   * Choice of that category.
   */
  predicate ScopedChoice(ref: Option<int>, choices: map<int, Choice>, category: string, blankAllowed: bool) {
    match ref
    case None => blankAllowed
    case Some(id) => id in choices && choices[id].category == category
  }

  /** A scoped reference accepts a Choice exactly when its category is the declared one. */
  lemma ScopedChoiceExact(id: int, choices: map<int, Choice>, category: string, blankAllowed: bool)
    requires id in choices
    ensures ScopedChoice(Some(id), choices, category, blankAllowed) <==> choices[id].category == category
  {
  }

  /** The same name may be a valid Choice under two categories at once. */
  lemma NamesSharedAcrossCategories()
    ensures ValidChoice(Choice(ClinicType, "Other")) && ValidChoice(Choice(Growth, "Other"))
  {
  }

  // ---------------------------------------------------------------- geography

  datatype Province = Province(name: string)

  /** `province` is a NOT NULL foreign key with ON DELETE CASCADE. */
  datatype District = District(name: string, province: int)

  /** `district` is a NOT NULL foreign key with ON DELETE CASCADE. */
  datatype DsDivision = DsDivision(name: string, district: int)

  /** `dsDivision` is a nullable foreign key with ON DELETE SET NULL. */
  datatype ThalassemiaUnit = ThalassemiaUnit(name: string, description: Option<string>, dsDivision: Option<int>)

  datatype DiagnosisType = DiagnosisType(name: string, description: Option<string>, icdCode: Option<string>)

  /**
   * Validation of the master lists: `name` may not be blank, and a foreign key must name a row
   * on record (`provinces`, `districts`, `divisions` are the ids of the referenced tables); the
   * division of a unit may be left empty.
   */
  predicate ValidProvince(p: Province) { p.name != "" }
  predicate ValidDistrict(d: District, provinces: set<int>) { d.name != "" && d.province in provinces }
  predicate ValidDsDivision(v: DsDivision, districts: set<int>) { v.name != "" && v.district in districts }
  predicate ValidThalassemiaUnit(u: ThalassemiaUnit, divisions: set<int>) {
    u.name != "" && Tables.RefOk(u.dsDivision, divisions)
  }
  predicate ValidDiagnosisType(t: DiagnosisType) { t.name != "" }

  // ---------------------------------------------------------------- listings (Meta.ordering = ["name"])

  function ProvincesByName(table: map<int, Province>): (rows: seq<(int, Province)>)
    ensures |rows| == |table| && forall k :: k in table ==> (k, table[k]) in rows
    ensures forall i :: 0 <= i < |rows| ==> rows[i].0 in table && table[rows[i].0] == rows[i].1
    ensures forall i, j :: 0 <= i < j < |rows| ==> Ordering.NameLe(rows[i].1.name, rows[j].1.name)
  {
    Ordering.OrderByName(table, (p: Province) => p.name)
  }

  function DistrictsByName(table: map<int, District>): (rows: seq<(int, District)>)
    ensures |rows| == |table| && forall k :: k in table ==> (k, table[k]) in rows
    ensures forall i :: 0 <= i < |rows| ==> rows[i].0 in table && table[rows[i].0] == rows[i].1
    ensures forall i, j :: 0 <= i < j < |rows| ==> Ordering.NameLe(rows[i].1.name, rows[j].1.name)
  {
    Ordering.OrderByName(table, (d: District) => d.name)
  }

  function DsDivisionsByName(table: map<int, DsDivision>): (rows: seq<(int, DsDivision)>)
    ensures |rows| == |table| && forall k :: k in table ==> (k, table[k]) in rows
    ensures forall i :: 0 <= i < |rows| ==> rows[i].0 in table && table[rows[i].0] == rows[i].1
    ensures forall i, j :: 0 <= i < j < |rows| ==> Ordering.NameLe(rows[i].1.name, rows[j].1.name)
  {
    Ordering.OrderByName(table, (v: DsDivision) => v.name)
  }

  function DiagnosisTypesByName(table: map<int, DiagnosisType>): (rows: seq<(int, DiagnosisType)>)
    ensures |rows| == |table| && forall k :: k in table ==> (k, table[k]) in rows
    ensures forall i :: 0 <= i < |rows| ==> rows[i].0 in table && table[rows[i].0] == rows[i].1
    ensures forall i, j :: 0 <= i < j < |rows| ==> Ordering.NameLe(rows[i].1.name, rows[j].1.name)
  {
    Ordering.OrderByName(table, (t: DiagnosisType) => t.name)
  }
}
