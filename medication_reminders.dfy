/**
 * The medication-reminder simulation: every 15 seconds the dashboard walks all patients
 * and their prescriptions for the current time of day, queues a reminder for each unfilled
 * prescription not yet reminded of, and moves on to the next time of day.
 */
module MedicationReminders {
  import opened HospitalTypes

  const TimesOfDay: seq<MedicationTiming> := [Morning, Afternoon, Evening, Night]

  /** `patient.email && patient.prescriptions`: a non-empty email and a prescription list. */
  predicate Reachable(p: PatientRecord)
  {
    p.email.Some? && p.email.value != "" && p.prescriptions.Some?
  }

  /** `notifications.some(...)`: a reminder for this patient, drug and time of day exists. */
  predicate AlreadyNotified(existing: seq<NotificationItem>, patientId: string, drug: string, tod: MedicationTiming)
  {
    exists n :: n in existing && n.patientId == patientId && n.drug == drug && n.timing == tod
  }

  /** Taken at this time of day and not all bought yet. */
  predicate Unfilled(rx: Prescription, tod: MedicationTiming)
  {
    rx.timing.Some? && tod in rx.timing.value && rx.boughtQuantity < rx.prescribedQuantity
  }

  datatype Reminder = Reminder(patientId: string, drug: string)

  function KeyOf(n: NotificationItem): Reminder
  {
    Reminder(n.patientId, n.drug)
  }

  function Keys(ns: seq<NotificationItem>): (r: seq<Reminder>)
    ensures |r| == |ns|
  {
    if ns == [] then [] else Keys(ns[..|ns| - 1]) + [KeyOf(ns[|ns| - 1])]
  }

  /** The reminders one patient's prescriptions call for, in prescription order. */
  function DueFor(patientId: string, rxs: seq<Prescription>, existing: seq<NotificationItem>, tod: MedicationTiming): (r: seq<Reminder>)
    ensures |r| <= |rxs|
    ensures forall k :: 0 <= k < |r| ==> r[k].patientId == patientId
  {
    if rxs == [] then []
    else
      var rx := rxs[|rxs| - 1];
      DueFor(patientId, rxs[..|rxs| - 1], existing, tod)
      + (if Unfilled(rx, tod) && !AlreadyNotified(existing, patientId, rx.drug, tod) then [Reminder(patientId, rx.drug)] else [])
  }

  /** The reminders one tick creates, patient by patient. */
  function DueReminders(patients: seq<PatientRecord>, existing: seq<NotificationItem>, tod: MedicationTiming): (r: seq<Reminder>)
    ensures (forall i :: 0 <= i < |patients| ==> !Reachable(patients[i])) ==> r == []
  {
    if patients == [] then []
    else
      var p := patients[|patients| - 1];
      DueReminders(patients[..|patients| - 1], existing, tod)
      + (if Reachable(p) then DueFor(p.id, p.prescriptions.value, existing, tod) else [])
  }

  lemma KeysSnoc(ns: seq<NotificationItem>, n: NotificationItem)
    ensures Keys(ns + [n]) == Keys(ns) + [KeyOf(n)]
  {
    assert (ns + [n])[..|ns + [n]| - 1] == ns;
  }

  /** The k-th reminder carries the k-th fresh id and the current time of day. */
  ghost predicate Numbered(created: seq<NotificationItem>, ids: nat -> real, tod: MedicationTiming)
  {
    forall k :: 0 <= k < |created| ==> created[k].id == ids(k) && created[k].timing == tod
  }

  lemma NumberedSnoc(created: seq<NotificationItem>, n: NotificationItem, ids: nat -> real, tod: MedicationTiming)
    requires Numbered(created, ids, tod) && n.id == ids(|created|) && n.timing == tod
    ensures Numbered(created + [n], ids, tod)
  {
  }

  /**
   * The walk over patients. The k-th reminder created gets the id `ids(k)` (the dashboard
   * draws `Date.now() + Math.random()`).
   */
  method CollectReminders(patients: seq<PatientRecord>, existing: seq<NotificationItem>,
                          tod: MedicationTiming, ids: nat -> real)
    returns (created: seq<NotificationItem>)
    ensures Keys(created) == DueReminders(patients, existing, tod)
    ensures forall k :: 0 <= k < |created| ==> created[k].id == ids(k) && created[k].timing == tod
  {
    created := [];
    var i := 0;
    while i < |patients|
      invariant 0 <= i <= |patients|
      invariant Keys(created) == DueReminders(patients[..i], existing, tod)
      invariant Numbered(created, ids, tod)
    {
      var p := patients[i];
      DueRemindersStep(patients, existing, tod, i);
      if p.email.Some? && p.email.value != "" && p.prescriptions.Some? {
        created := CollectForPatient(p.id, p.prescriptions.value, existing, tod, ids, created);
      }
      i := i + 1;
    }
    assert patients[..|patients|] == patients;
  }

  /** The inner walk over one patient's prescriptions, appending to the reminders so far. */
  method CollectForPatient(patientId: string, rxs: seq<Prescription>, existing: seq<NotificationItem>,
                           tod: MedicationTiming, ids: nat -> real, before: seq<NotificationItem>)
    returns (created: seq<NotificationItem>)
    requires Numbered(before, ids, tod)
    ensures Keys(created) == Keys(before) + DueFor(patientId, rxs, existing, tod)
    ensures Numbered(created, ids, tod)
  {
    created := before;
    var j := 0;
    while j < |rxs|
      invariant 0 <= j <= |rxs|
      invariant Keys(created) == Keys(before) + DueFor(patientId, rxs[..j], existing, tod)
      invariant Numbered(created, ids, tod)
    {
      DueForStep(patientId, rxs, existing, tod, j);
      created := RemindOf(patientId, rxs[j], existing, tod, ids, created);
      j := j + 1;
    }
    assert rxs[..|rxs|] == rxs;
  }

  /** The body of the inner walk: remind of one prescription if it is due. */
  method RemindOf(patientId: string, rx: Prescription, existing: seq<NotificationItem>,
                  tod: MedicationTiming, ids: nat -> real, before: seq<NotificationItem>)
    returns (created: seq<NotificationItem>)
    requires Numbered(before, ids, tod)
    ensures Keys(created) == Keys(before)
              + (if Unfilled(rx, tod) && !AlreadyNotified(existing, patientId, rx.drug, tod)
                 then [Reminder(patientId, rx.drug)] else [])
    ensures Numbered(created, ids, tod)
  {
    created := before;
    if rx.timing.Some? && tod in rx.timing.value && rx.boughtQuantity < rx.prescribedQuantity {
      var notified := AlreadyNotified(existing, patientId, rx.drug, tod);
      if !notified {
        var n := NotificationItem(ids(|created|), patientId, rx.drug, tod);
        KeysSnoc(created, n);
        NumberedSnoc(created, n, ids, tod);
        created := created + [n];
      }
    }
  }

  /** One more patient extends the reminders due by that patient's, if the patient is reachable. */
  lemma DueRemindersStep(patients: seq<PatientRecord>, existing: seq<NotificationItem>, tod: MedicationTiming, i: nat)
    requires i < |patients|
    ensures DueReminders(patients[..i + 1], existing, tod)
            == DueReminders(patients[..i], existing, tod)
               + (if Reachable(patients[i]) then DueFor(patients[i].id, patients[i].prescriptions.value, existing, tod) else [])
  {
    assert patients[..i + 1][..i] == patients[..i];
  }

  /** One more prescription extends the reminders due by at most that prescription's. */
  lemma DueForStep(patientId: string, rxs: seq<Prescription>, existing: seq<NotificationItem>,
                   tod: MedicationTiming, j: nat)
    requires j < |rxs|
    ensures DueFor(patientId, rxs[..j + 1], existing, tod)
            == DueFor(patientId, rxs[..j], existing, tod)
               + (if Unfilled(rxs[j], tod) && !AlreadyNotified(existing, patientId, rxs[j].drug, tod)
                  then [Reminder(patientId, rxs[j].drug)] else [])
  {
    assert rxs[..j + 1][..j] == rxs[..j];
  }

  // ---------------------------------------------------------------- what a tick creates

  /** Every reminder created is for a reachable patient's unfilled prescription not yet reminded of. */
  lemma {:induction false} DueForSound(patientId: string, rxs: seq<Prescription>, existing: seq<NotificationItem>,
                                       tod: MedicationTiming, k: nat)
    requires k < |DueFor(patientId, rxs, existing, tod)|
    ensures var r := DueFor(patientId, rxs, existing, tod)[k];
      r.patientId == patientId && !AlreadyNotified(existing, patientId, r.drug, tod)
      && exists j :: 0 <= j < |rxs| && rxs[j].drug == r.drug && Unfilled(rxs[j], tod)
  {
    var n := |rxs| - 1;
    var prefix := DueFor(patientId, rxs[..n], existing, tod);
    if k < |prefix| {
      DueForSound(patientId, rxs[..n], existing, tod, k);
      var j :| 0 <= j < |rxs[..n]| && rxs[..n][j].drug == prefix[k].drug && Unfilled(rxs[..n][j], tod);
      assert rxs[j] == rxs[..n][j];
    } else {
      assert rxs[n].drug == DueFor(patientId, rxs, existing, tod)[k].drug;
    }
  }

  lemma {:induction false} DueRemindersSound(patients: seq<PatientRecord>, existing: seq<NotificationItem>,
                                             tod: MedicationTiming, k: nat)
    requires k < |DueReminders(patients, existing, tod)|
    ensures var r := DueReminders(patients, existing, tod)[k];
      && !AlreadyNotified(existing, r.patientId, r.drug, tod)
      && exists i :: 0 <= i < |patients| && patients[i].id == r.patientId && Reachable(patients[i])
           && exists j :: 0 <= j < |patients[i].prescriptions.value| && patients[i].prescriptions.value[j].drug == r.drug
                && Unfilled(patients[i].prescriptions.value[j], tod)
  {
    var n := |patients| - 1;
    var prefix := DueReminders(patients[..n], existing, tod);
    if k < |prefix| {
      DueRemindersSound(patients[..n], existing, tod, k);
      var i :| 0 <= i < n && patients[..n][i].id == prefix[k].patientId && Reachable(patients[..n][i])
               && exists j :: 0 <= j < |patients[..n][i].prescriptions.value| && patients[..n][i].prescriptions.value[j].drug == prefix[k].drug
                    && Unfilled(patients[..n][i].prescriptions.value[j], tod);
      assert patients[i] == patients[..n][i];
    } else {
      var p := patients[n];
      DueForSound(p.id, p.prescriptions.value, existing, tod, k - |prefix|);
    }
  }

  /** Every unfilled prescription of a reachable patient not yet reminded of is reminded of. */
  lemma {:induction false} DueForComplete(patientId: string, rxs: seq<Prescription>, existing: seq<NotificationItem>,
                                          tod: MedicationTiming, j: nat)
    requires j < |rxs| && Unfilled(rxs[j], tod) && !AlreadyNotified(existing, patientId, rxs[j].drug, tod)
    ensures Reminder(patientId, rxs[j].drug) in DueFor(patientId, rxs, existing, tod)
  {
    var n := |rxs| - 1;
    if j < n {
      assert rxs[..n][j] == rxs[j];
      DueForComplete(patientId, rxs[..n], existing, tod, j);
    }
  }

  lemma {:induction false} DueRemindersComplete(patients: seq<PatientRecord>, existing: seq<NotificationItem>,
                                                tod: MedicationTiming, i: nat, j: nat)
    requires i < |patients| && Reachable(patients[i])
    requires j < |patients[i].prescriptions.value|
    requires Unfilled(patients[i].prescriptions.value[j], tod)
    requires !AlreadyNotified(existing, patients[i].id, patients[i].prescriptions.value[j].drug, tod)
    ensures Reminder(patients[i].id, patients[i].prescriptions.value[j].drug) in DueReminders(patients, existing, tod)
  {
    var n := |patients| - 1;
    if i < n {
      assert patients[..n][i] == patients[i];
      DueRemindersComplete(patients[..n], existing, tod, i, j);
    } else {
      DueForComplete(patients[i].id, patients[i].prescriptions.value, existing, tod, j);
    }
  }

  /** Nothing is due for a prescription list whose every unfilled entry was reminded of. */
  lemma {:induction false} NothingDueFor(patientId: string, rxs: seq<Prescription>, existing: seq<NotificationItem>, tod: MedicationTiming)
    requires forall j :: 0 <= j < |rxs| && Unfilled(rxs[j], tod) ==> AlreadyNotified(existing, patientId, rxs[j].drug, tod)
    ensures DueFor(patientId, rxs, existing, tod) == []
  {
    if rxs != [] {
      NothingDueFor(patientId, rxs[..|rxs| - 1], existing, tod);
    }
  }

  lemma {:induction false} NothingDue(patients: seq<PatientRecord>, existing: seq<NotificationItem>, tod: MedicationTiming)
    requires forall i, j :: 0 <= i < |patients| && Reachable(patients[i]) && 0 <= j < |patients[i].prescriptions.value|
               && Unfilled(patients[i].prescriptions.value[j], tod)
               ==> AlreadyNotified(existing, patients[i].id, patients[i].prescriptions.value[j].drug, tod)
    ensures DueReminders(patients, existing, tod) == []
  {
    if patients != [] {
      var n := |patients| - 1;
      NothingDue(patients[..n], existing, tod);
      if Reachable(patients[n]) {
        NothingDueFor(patients[n].id, patients[n].prescriptions.value, existing, tod);
      }
    }
  }

  /**
   * A second tick at the same time of day, over the same patients and with this tick's
   * reminders appended, creates nothing: reminders are never duplicated.
   */
  lemma RemindersNotRepeated(patients: seq<PatientRecord>, existing: seq<NotificationItem>,
                             tod: MedicationTiming, created: seq<NotificationItem>)
    requires Keys(created) == DueReminders(patients, existing, tod)
    requires forall k :: 0 <= k < |created| ==> created[k].timing == tod
    ensures DueReminders(patients, existing + created, tod) == []
  {
    forall i, j | 0 <= i < |patients| && Reachable(patients[i]) && 0 <= j < |patients[i].prescriptions.value|
                  && Unfilled(patients[i].prescriptions.value[j], tod)
      ensures AlreadyNotified(existing + created, patients[i].id, patients[i].prescriptions.value[j].drug, tod)
    {
      var drug := patients[i].prescriptions.value[j].drug;
      if !AlreadyNotified(existing, patients[i].id, drug, tod) {
        DueRemindersComplete(patients, existing, tod, i, j);
        var k :| 0 <= k < |created| && Keys(created)[k] == Reminder(patients[i].id, drug);
        KeyAt(created, k);
        assert created[k] in existing + created;
      } else {
        var n :| n in existing && n.patientId == patients[i].id && n.drug == drug && n.timing == tod;
        assert n in existing + created;
      }
    }
    NothingDue(patients, existing + created, tod);
  }

  lemma {:induction false} KeyAt(ns: seq<NotificationItem>, k: nat)
    requires k < |ns|
    ensures Keys(ns)[k] == KeyOf(ns[k])
  {
    if k < |ns| - 1 {
      KeyAt(ns[..|ns| - 1], k);
    }
  }

  // ---------------------------------------------------------------- the simulation state

  /** `timeOfDayIndex` and the `notifications` list the reminder effect reads and extends. */
  class ReminderSimulation {
    var timeOfDayIndex: nat
    var notifications: seq<NotificationItem>

    ghost predicate Valid()
      reads this
    {
      timeOfDayIndex < |TimesOfDay|
    }

    constructor ()
      ensures Valid() && timeOfDayIndex == 0 && notifications == []
    {
      timeOfDayIndex := 0;
      notifications := [];
    }

    /**
     * One firing of the reminder interval: the reminders due at the current time of day are
     * appended after the existing ones, and the time of day advances cyclically.
     */
    method Tick(patients: seq<PatientRecord>, ids: nat -> real) returns (created: seq<NotificationItem>)
      requires Valid()
      modifies this
      ensures Valid()
      ensures var tod := TimesOfDay[old(timeOfDayIndex)];
        && Keys(created) == DueReminders(patients, old(notifications), tod)
        && (forall k :: 0 <= k < |created| ==> created[k].id == ids(k) && created[k].timing == tod)
        && notifications == old(notifications) + created
      ensures timeOfDayIndex == (old(timeOfDayIndex) + 1) % |TimesOfDay|
    {
      var currentTimeOfDay := TimesOfDay[timeOfDayIndex];
      created := CollectReminders(patients, notifications, currentTimeOfDay, ids);
      if |created| > 0 {
        notifications := notifications + created;
      }
      timeOfDayIndex := (timeOfDayIndex + 1) % |TimesOfDay|;
    }

    /** `handleDismissNotification`: drop every reminder with that id. */
    method Dismiss(id: real)
      requires Valid()
      modifies this
      ensures Valid() && timeOfDayIndex == old(timeOfDayIndex)
      ensures notifications == WithoutId(old(notifications), id)
    {
      notifications := WithoutId(notifications, id);
    }
  }

  /** `prev.filter(n => n.id !== id)`. */
  function WithoutId(ns: seq<NotificationItem>, id: real): (r: seq<NotificationItem>)
    ensures |r| <= |ns|
    ensures forall n :: n in r <==> n in ns && n.id != id
    ensures |ns| == 1 ==> r == if ns[0].id != id then ns else []
  {
    if ns == [] then []
    else
      assert ns == ns[..|ns| - 1] + [ns[|ns| - 1]];
      WithoutId(ns[..|ns| - 1], id) + (if ns[|ns| - 1].id != id then [ns[|ns| - 1]] else [])
  }

  /**
   * Dismissal works piece by piece: filtering a concatenation filters each part in place,
   * so the remaining reminders keep their order and their copies.
   */
  lemma {:induction false} WithoutIdAppend(a: seq<NotificationItem>, b: seq<NotificationItem>, id: real)
    ensures WithoutId(a + b, id) == WithoutId(a, id) + WithoutId(b, id)
    decreases |b|
  {
    if b == [] {
      assert a + b == a;
    } else {
      var b' := b[..|b| - 1];
      assert (a + b)[..|a + b| - 1] == a + b';
      WithoutIdAppend(a, b', id);
    }
  }
}
