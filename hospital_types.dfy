/**
 * The records of the hospital dashboard that its handlers compute with. Optional
 * TypeScript properties (`x?: T`) are `Option`s; an absent `isAlarming` flag reads as
 * `false` everywhere the dashboard tests it, so it is a plain `bool` here.
 */
module HospitalTypes {
  import opened Wrappers

  datatype TriagePriority = CRITICAL | URGENT | NON_URGENT

  datatype TriageResult = TriageResult(priority: TriagePriority, rationale: string)

  /**
   * `Partial<PatientRecord["vitals"]>`: every reading may be missing. Temperatures are
   * fractional (37.1), the other readings whole numbers.
   */
  datatype Vitals = Vitals(
    heartRate: Option<int>,
    bloodPressure: Option<string>,   // "systolic/diastolic"
    temperature: Option<real>,
    oxygenSaturation: Option<int>,
    respiratoryRate: Option<int>)

  /** One patient waiting in the emergency-room triage queue. */
  datatype QueueItem = QueueItem(
    id: int,
    bayNumber: int,
    complaint: string,
    vitals: Vitals,
    result: TriageResult,
    isAlarming: bool)

  datatype BedStatus = Available | Occupied | Cleaning

  datatype Bed = Bed(id: string, ward: string, bedNumber: int, status: BedStatus, patientId: Option<string>)

  datatype MedicationTiming = Morning | Afternoon | Evening | Night

  datatype Prescription = Prescription(
    drug: string,
    dosage: string,
    frequency: string,
    timing: Option<seq<MedicationTiming>>,
    notes: Option<string>,
    prescribedQuantity: int,
    boughtQuantity: int)

  datatype BillingCategory = Consultation | PharmacyCharge | LabTestCharge | Procedure

  datatype BillingItem = BillingItem(id: string, description: string, category: BillingCategory, cost: real)

  datatype PaymentStatus = Paid | Unpaid

  /** The parts of a patient record that the pharmacy and reminder logic read or write. */
  datatype PatientRecord = PatientRecord(
    id: string,
    name: string,
    email: Option<string>,
    billing: seq<BillingItem>,
    prescriptions: Option<seq<Prescription>>,
    paymentStatus: PaymentStatus)

  datatype PharmacyInventoryItem = PharmacyInventoryItem(
    id: string,
    drugName: string,
    stockQuantity: int,
    reorderLevel: int,
    costPerUnit: real)

  /** A medication reminder; its id is a random fractional number. */
  datatype NotificationItem = NotificationItem(id: real, patientId: string, drug: string, timing: MedicationTiming)
}
