/** Prescriptions (clients/models/drug.py): the DrugName master list and per-client Drug rows. */
module Drugs {
  import opened Wrappers
  import opened Calendar
  import Ordering

  /** A medicine of the master list; `name` is UNIQUE, the dose and regimen are suggestions. */
  datatype DrugName = DrugName(name: string, dose: Option<string>, regimen: Option<string>)

  /**
   * A prescription. `client` is NOT NULL with ON DELETE CASCADE; `drugName` is nullable in storage
   * (ON DELETE SET NULL) but, lacking `blank=True`, required by validation.
   */
  datatype Drug = Drug(
    client: int,
    datePrescribed: Date,
    drugName: Option<int>,
    dose: string,
    regimen: string,
    duration: string,
    indication: Option<string>,
    prescribedBy: Option<string>)

  predicate ValidDrugName(n: DrugName) {
    n.name != ""
  }

  /**
   * Validation of a prescription: its client on record (`clients`), a drug on record
   * (`drugNames`), a dose, a regimen and a duration; indication and prescriber optional.
   */
  predicate ValidDrug(d: Drug, clients: set<int>, drugNames: set<int>) {
    && d.client in clients
    && d.drugName.Some? && d.drugName.value in drugNames
    && d.dose != "" && d.regimen != "" && d.duration != ""
  }

  /** The optional fields never decide validity. */
  lemma DrugOptionalFields(d: Drug, clients: set<int>, drugNames: set<int>,
                           indication: Option<string>, prescribedBy: Option<string>)
    ensures ValidDrug(d.(indication := indication, prescribedBy := prescribedBy), clients, drugNames)
        <==> ValidDrug(d, clients, drugNames)
  {
  }

  function DrugNamesByName(table: map<int, DrugName>): (rows: seq<(int, DrugName)>)
    ensures |rows| == |table| && forall k :: k in table ==> (k, table[k]) in rows
    ensures forall i :: 0 <= i < |rows| ==> rows[i].0 in table && table[rows[i].0] == rows[i].1
    ensures forall i, j :: 0 <= i < j < |rows| ==> Ordering.NameLe(rows[i].1.name, rows[j].1.name)
  {
    Ordering.OrderByName(table, (n: DrugName) => n.name)
  }
}
