/** The initial bed pool and ER queue the dashboard starts from. */
module Fixtures {
  import opened Wrappers
  import opened HospitalTypes

  /** The seeded bed pool: twelve beds, five Available, no id used twice. */
  function MockBeds(): (r: seq<Bed>)
    ensures |r| == 12
    ensures forall i, j :: 0 <= i < j < |r| ==> r[i].id != r[j].id
    ensures forall i :: 0 <= i < |r| ==> (r[i].patientId.Some? <==> r[i].status == Occupied)
  {
    [ Bed("bed-101", "Cardiology", 101, Occupied, Some("pat-001")),
      Bed("bed-102", "Cardiology", 102, Available, None),
      Bed("bed-103", "Cardiology", 103, Cleaning, None),
      Bed("bed-201", "Neurology", 201, Occupied, Some("pat-002")),
      Bed("bed-202", "Neurology", 202, Available, None),
      Bed("bed-301", "General", 301, Occupied, Some("pat-003")),
      Bed("bed-302", "General", 302, Available, None),
      Bed("bed-303", "General", 303, Available, None),
      Bed("bed-401", "Pediatrics", 401, Occupied, Some("pat-004")),
      Bed("bed-402", "Pediatrics", 402, Cleaning, None),
      Bed("bed-403", "Pediatrics", 403, Available, None),
      Bed("bed-501", "General", 501, Occupied, Some("pat-005")) ]
  }

  // The free-text parts of the seeded triage cases.
  const Bay1Complaint: string := "Difficulty breathing and chest tightness."
  const Bay1Rationale: string := "Symptoms are indicative of a potential cardiac or respiratory emergency. Low oxygen saturation and tachycardia require immediate attention."
  const Bay2Complaint: string := "High fever (103\U{B0}F) and persistent cough for two days."
  const Bay2Rationale: string := "High fever and respiratory symptoms suggest a significant infection, such as pneumonia, requiring prompt evaluation."
  const Bay3Complaint: string := "Twisted ankle during a run, mild swelling and pain."
  const Bay3Rationale: string := "Localized injury with stable vitals. Patient can be seen after more critical cases are addressed."

  /** The three seeded triage cases; their ids are the load time `now` plus 1, 2 and 3. */
  function MockErQueue(now: int): (r: seq<QueueItem>)
    ensures |r| == 3
    ensures forall i :: 0 <= i < 3 ==> r[i].id == now + i + 1 && r[i].bayNumber == i + 1 && !r[i].isAlarming
    ensures r[0].result.priority == CRITICAL && r[1].result.priority == URGENT
            && r[2].result.priority == NON_URGENT
  {
    [ QueueItem(now + 1, 1, Bay1Complaint,
        Vitals(Some(115), Some("150/90"), Some(37.1), Some(91), None),
        TriageResult(CRITICAL, Bay1Rationale), false),
      QueueItem(now + 2, 2, Bay2Complaint,
        Vitals(Some(105), Some("130/85"), Some(39.4), Some(96), Some(22)),
        TriageResult(URGENT, Bay2Rationale), false),
      QueueItem(now + 3, 3, Bay3Complaint,
        Vitals(Some(80), Some("120/80"), Some(37.0), Some(99), None),
        TriageResult(NON_URGENT, Bay3Rationale), false) ]
  }
}
