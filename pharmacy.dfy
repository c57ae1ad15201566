/**
 * `handleDispenseMedication` and `handleRestockInventory`: the prescription, billing and
 * stock arithmetic of the pharmacy.
 */
module Pharmacy {
  import opened Wrappers
  import opened HospitalTypes
  import Decimal

  /** The patient's prescriptions after dispensing: `quantity` more bought of each one for `drug`. */
  function AddBought(rxs: seq<Prescription>, drug: string, quantity: int): (r: seq<Prescription>)
    ensures |r| == |rxs|
    ensures forall i :: 0 <= i < |rxs| && rxs[i].drug != drug ==> r[i] == rxs[i]
    ensures forall i :: 0 <= i < |rxs| && rxs[i].drug == drug ==>
              r[i] == rxs[i].(boughtQuantity := rxs[i].boughtQuantity + quantity)
  {
    seq(|rxs|, i requires 0 <= i < |rxs| =>
      if rxs[i].drug == drug then rxs[i].(boughtQuantity := rxs[i].boughtQuantity + quantity) else rxs[i])
  }

  /** The billing line added for a dispensing made at time `now`. */
  function DispenseBill(drug: string, quantity: int, costPerUnit: real, now: int): (r: BillingItem)
    ensures r.category == PharmacyCharge && r.cost == quantity as real * costPerUnit
    ensures r.id == "bill-" + Decimal.IntToDecimal(now)
    ensures |r.description| > |drug| && r.description[..|drug|] == drug
  {
    BillingItem("bill-" + Decimal.IntToDecimal(now),
                drug + " (x" + Decimal.IntToDecimal(quantity) + ")",
                PharmacyCharge,
                quantity as real * costPerUnit)
  }

  /** The dispensing patient's record: bought quantities raised and one billing line appended. */
  function DispenseToPatient(p: PatientRecord, drug: string, quantity: int, costPerUnit: real, now: int): (r: PatientRecord)
    ensures r == p.(prescriptions := r.prescriptions, billing := r.billing)
    ensures r.billing == p.billing + [DispenseBill(drug, quantity, costPerUnit, now)]
    ensures r.prescriptions.Some? <==> p.prescriptions.Some?
    ensures p.prescriptions.Some? ==> |r.prescriptions.value| == |p.prescriptions.value|
    ensures p.prescriptions.Some? ==> r.prescriptions == Some(AddBought(p.prescriptions.value, drug, quantity))
  {
    p.(prescriptions := if p.prescriptions.Some? then Some(AddBought(p.prescriptions.value, drug, quantity)) else None,
       billing := p.billing + [DispenseBill(drug, quantity, costPerUnit, now)])
  }

  /** The patient half of `handleDispenseMedication`. */
  function DispenseToPatients(patients: seq<PatientRecord>, patientId: string, drug: string,
                              quantity: int, costPerUnit: real, now: int): (r: seq<PatientRecord>)
    ensures |r| == |patients|
    ensures forall i :: 0 <= i < |patients| && patients[i].id != patientId ==> r[i] == patients[i]
    ensures forall i :: 0 <= i < |patients| && patients[i].id == patientId ==>
              r[i] == DispenseToPatient(patients[i], drug, quantity, costPerUnit, now)
  {
    seq(|patients|, i requires 0 <= i < |patients| =>
      if patients[i].id == patientId then DispenseToPatient(patients[i], drug, quantity, costPerUnit, now)
      else patients[i])
  }

  /** The stock half of `handleDispenseMedication`: no check that enough is in stock. */
  function DispenseFromInventory(inventory: seq<PharmacyInventoryItem>, drug: string, quantity: int): (r: seq<PharmacyInventoryItem>)
    ensures |r| == |inventory|
    ensures forall i :: 0 <= i < |inventory| && inventory[i].drugName != drug ==> r[i] == inventory[i]
    ensures forall i :: 0 <= i < |inventory| && inventory[i].drugName == drug ==>
              r[i] == inventory[i].(stockQuantity := inventory[i].stockQuantity - quantity)
  {
    seq(|inventory|, i requires 0 <= i < |inventory| =>
      if inventory[i].drugName == drug then inventory[i].(stockQuantity := inventory[i].stockQuantity - quantity)
      else inventory[i])
  }

  /** `handleRestockInventory`: `quantity` more of the item with that id. */
  function RestockInventory(inventory: seq<PharmacyInventoryItem>, drugId: string, quantity: int): (r: seq<PharmacyInventoryItem>)
    ensures |r| == |inventory|
    ensures forall i :: 0 <= i < |inventory| && inventory[i].id != drugId ==> r[i] == inventory[i]
    ensures forall i :: 0 <= i < |inventory| && inventory[i].id == drugId ==>
              r[i] == inventory[i].(stockQuantity := inventory[i].stockQuantity + quantity)
  {
    seq(|inventory|, i requires 0 <= i < |inventory| =>
      if inventory[i].id == drugId then inventory[i].(stockQuantity := inventory[i].stockQuantity + quantity)
      else inventory[i])
  }

  // ---------------------------------------------------------------- totals

  function BillingTotal(items: seq<BillingItem>): real
  {
    if items == [] then 0.0 else BillingTotal(items[..|items| - 1]) + items[|items| - 1].cost
  }

  /** How many prescriptions for `drug` the list holds. */
  function CountDrug(rxs: seq<Prescription>, drug: string): nat
  {
    if rxs == [] then 0 else CountDrug(rxs[..|rxs| - 1], drug) + (if rxs[|rxs| - 1].drug == drug then 1 else 0)
  }

  /** Units of `drug` bought over all of the list's prescriptions for it. */
  function Bought(rxs: seq<Prescription>, drug: string): int
  {
    if rxs == [] then 0
    else Bought(rxs[..|rxs| - 1], drug) + (if rxs[|rxs| - 1].drug == drug then rxs[|rxs| - 1].boughtQuantity else 0)
  }

  function StockItems(inventory: seq<PharmacyInventoryItem>, drug: string): nat
  {
    if inventory == [] then 0
    else StockItems(inventory[..|inventory| - 1], drug) + (if inventory[|inventory| - 1].drugName == drug then 1 else 0)
  }

  /** Units of `drug` in stock over all inventory lines for it. */
  function StockOf(inventory: seq<PharmacyInventoryItem>, drug: string): int
  {
    if inventory == [] then 0
    else StockOf(inventory[..|inventory| - 1], drug)
         + (if inventory[|inventory| - 1].drugName == drug then inventory[|inventory| - 1].stockQuantity else 0)
  }

  // ---------------------------------------------------------------- what dispensing does

  /** Dispensing raises the units bought of that drug by `quantity` per prescription for it. */
  lemma {:induction false} AddBoughtTotal(rxs: seq<Prescription>, drug: string, quantity: int)
    ensures Bought(AddBought(rxs, drug, quantity), drug) == Bought(rxs, drug) + quantity * CountDrug(rxs, drug)
  {
    if rxs != [] {
      var n := |rxs| - 1;
      var r := AddBought(rxs, drug, quantity);
      AddBoughtPrefix(rxs, drug, quantity, n);
      AddBoughtTotal(rxs[..n], drug, quantity);
      var c := CountDrug(rxs[..n], drug);
      if rxs[n].drug == drug {
        assert CountDrug(rxs, drug) == c + 1;
        assert Bought(r, drug) == Bought(r[..n], drug) + rxs[n].boughtQuantity + quantity;
        assert quantity * (c + 1) == quantity * c + quantity;
      } else {
        assert CountDrug(rxs, drug) == c;
        assert Bought(r, drug) == Bought(r[..n], drug);
      }
    }
  }

  lemma AddBoughtPrefix(rxs: seq<Prescription>, drug: string, quantity: int, n: nat)
    requires n <= |rxs|
    ensures AddBought(rxs, drug, quantity)[..n] == AddBought(rxs[..n], drug, quantity)
  {
  }

  /** Dispensing never changes the units bought of another drug. */
  lemma {:induction false} AddBoughtOtherDrug(rxs: seq<Prescription>, drug: string, other: string, quantity: int)
    requires other != drug
    ensures Bought(AddBought(rxs, drug, quantity), other) == Bought(rxs, other)
  {
    if rxs != [] {
      var n := |rxs| - 1;
      AddBoughtPrefix(rxs, drug, quantity, n);
      AddBoughtOtherDrug(rxs[..n], drug, other, quantity);
    }
  }

  /**
   * For the dispensing patient: exactly one billing line is appended, it costs
   * `quantity * costPerUnit` so the bill grows by exactly that, and the units bought of the
   * drug grow by `quantity` for each prescription of it, other drugs unchanged.
   */
  lemma DispenseToPatientSpec(p: PatientRecord, drug: string, quantity: int, costPerUnit: real, now: int, other: string)
    requires other != drug
    ensures var r := DispenseToPatient(p, drug, quantity, costPerUnit, now);
      && r.billing[..|p.billing|] == p.billing
      && |r.billing| == |p.billing| + 1
      && r.billing[|p.billing|].category == PharmacyCharge
      && r.billing[|p.billing|].cost == quantity as real * costPerUnit
      && BillingTotal(r.billing) == BillingTotal(p.billing) + quantity as real * costPerUnit
      && r.prescriptions.Some? == p.prescriptions.Some?
      && (p.prescriptions.Some? ==>
            && Bought(r.prescriptions.value, drug)
               == Bought(p.prescriptions.value, drug) + quantity * CountDrug(p.prescriptions.value, drug)
            && Bought(r.prescriptions.value, other) == Bought(p.prescriptions.value, other))
      && r.id == p.id && r.email == p.email && r.paymentStatus == p.paymentStatus
  {
    var r := DispenseToPatient(p, drug, quantity, costPerUnit, now);
    assert r.billing[..|r.billing| - 1] == p.billing;
    if p.prescriptions.Some? {
      AddBoughtTotal(p.prescriptions.value, drug, quantity);
      AddBoughtOtherDrug(p.prescriptions.value, drug, other, quantity);
    }
  }

  /** Stock of the drug falls by `quantity` per inventory line for it; nothing stops it going negative. */
  lemma {:induction false} DispenseStockTotal(inventory: seq<PharmacyInventoryItem>, drug: string, quantity: int)
    ensures StockOf(DispenseFromInventory(inventory, drug, quantity), drug)
            == StockOf(inventory, drug) - quantity * StockItems(inventory, drug)
  {
    if inventory != [] {
      var n := |inventory| - 1;
      var r := DispenseFromInventory(inventory, drug, quantity);
      assert r[..n] == DispenseFromInventory(inventory[..n], drug, quantity);
      DispenseStockTotal(inventory[..n], drug, quantity);
      var c := StockItems(inventory[..n], drug);
      if inventory[n].drugName == drug {
        assert StockItems(inventory, drug) == c + 1;
        assert StockOf(r, drug) == StockOf(r[..n], drug) + inventory[n].stockQuantity - quantity;
        assert quantity * (c + 1) == quantity * c + quantity;
      } else {
        assert StockItems(inventory, drug) == c;
        assert StockOf(r, drug) == StockOf(r[..n], drug);
      }
    }
  }

  /** With no lower-bound check, dispensing more than a line holds leaves it negative. */
  lemma DispenseCanOverdraw(inventory: seq<PharmacyInventoryItem>, drug: string, quantity: int, i: nat)
    requires i < |inventory| && inventory[i].drugName == drug && inventory[i].stockQuantity < quantity
    ensures DispenseFromInventory(inventory, drug, quantity)[i].stockQuantity < 0
  {
  }

  /**
   * Restocking the dispensed quantity undoes a dispensing when the inventory line with
   * that id is exactly the line (or lines) for that drug.
   */
  lemma RestockUndoesDispense(inventory: seq<PharmacyInventoryItem>, drug: string, drugId: string, quantity: int)
    requires forall i :: 0 <= i < |inventory| ==> (inventory[i].drugName == drug <==> inventory[i].id == drugId)
    ensures RestockInventory(DispenseFromInventory(inventory, drug, quantity), drugId, quantity) == inventory
  {
    var r := RestockInventory(DispenseFromInventory(inventory, drug, quantity), drugId, quantity);
    assert forall i :: 0 <= i < |inventory| ==> r[i] == inventory[i];
  }
}
