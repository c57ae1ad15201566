/**
 * The emergency-room part of the dashboard's state as one object: the triage queue, the
 * bed pool and the siren, with the handlers and effects that replace them. Each method
 * is specified by the pure function of the same behaviour and keeps the dashboard's
 * invariants: the queue stays priority-ordered, beds hold a patient exactly when
 * Occupied, and at most one repeat interval runs.
 */
module ErDashboard {
  import opened Wrappers
  import opened HospitalTypes
  import Fixtures
  import TriageQueue
  import Admission
  import AlarmNotifier

  class Dashboard {
    var erQueue: seq<QueueItem>
    var beds: seq<Bed>
    var speechIntervalRef: Option<nat>
    var runningRepeats: map<nat, int>
    var nextTimerId: nat
    var speech: seq<AlarmNotifier.SpeechEvent>
    /** `MOCK_ER_QUEUE` as loaded: the baseline vitals restored on silencing come from it. */
    const seededQueue: seq<QueueItem>

    ghost function Siren(): AlarmNotifier.Siren
      reads this
    {
      AlarmNotifier.Siren(speechIntervalRef, runningRepeats, nextTimerId, speech)
    }

    ghost predicate Valid()
      reads this
    {
      && TriageQueue.SortedByPriority(erQueue)
      && Admission.BedsConsistent(beds)
      && Admission.UniqueBedIds(beds)
      && AlarmNotifier.Valid(Siren())
    }

    /** The initial state: the seeded queue sorted by priority, the seeded beds, a silent siren. */
    constructor (now: int)
      ensures Valid()
      ensures seededQueue == Fixtures.MockErQueue(now)
      ensures erQueue == TriageQueue.InitialQueue(now)
      ensures beds == Fixtures.MockBeds()
      ensures Siren() == AlarmNotifier.Silent
    {
      var seeded := Fixtures.MockErQueue(now);
      var pool := Fixtures.MockBeds();
      TriageQueue.InitialQueueInSeedOrder(now);
      Admission.MockBedsConsistent();
      seededQueue := seeded;
      erQueue := TriageQueue.InitialQueue(now);
      beds := pool;
      speechIntervalRef, runningRepeats, nextTimerId, speech := None, map[], 1, [];
    }

    method AddToQueue(item: QueueItem)
      requires Valid()
      modifies this
      ensures Valid()
      ensures erQueue == TriageQueue.AddToQueue(old(erQueue), item)
      ensures beds == old(beds) && Siren() == old(Siren())
    {
      erQueue := TriageQueue.AddToQueue(erQueue, item);
      TriageQueue.AddToQueueSpec(old(erQueue), item);
    }

    method AdmitPatientFromQueue(queueItemId: int) returns (admitted: bool)
      requires Valid()
      modifies this
      ensures Valid()
      ensures var r := Admission.AdmitPatientFromQueue(old(beds), old(erQueue), queueItemId);
        admitted == r.admitted && beds == r.beds && erQueue == r.queue
      ensures admitted ==>
        var k := Admission.FirstAvailable(old(beds)).value;
        beds == old(beds)[k := old(beds)[k].(status := Occupied, patientId := Some(Admission.ErPatientId(queueItemId)))]
      ensures Siren() == old(Siren())
    {
      Admission.AdmitSpec(beds, erQueue, queueItemId);
      var available := Admission.FirstAvailable(beds);
      if available.None? {
        return false;
      }
      Admission.AdmitKeepsBedsConsistent(beds, erQueue, queueItemId);
      Admission.AdmitKeepsBedIdsUnique(beds, erQueue, queueItemId);
      Admission.AdmitKeepsQueueOrder(beds, erQueue, queueItemId);
      beds := Admission.OccupyBed(beds, beds[available.value].id, Admission.ErPatientId(queueItemId));
      erQueue := TriageQueue.RemoveFromQueue(erQueue, queueItemId);
      admitted := true;
    }

    method UpdateQueueVitals(queueItemId: int, patch: Vitals)
      requires Valid()
      modifies this
      ensures Valid()
      ensures erQueue == TriageQueue.UpdateQueueVitals(old(erQueue), queueItemId, patch)
      ensures beds == old(beds) && Siren() == old(Siren())
    {
      TriageQueue.InPlaceHandlersKeepPriorities(erQueue, queueItemId, patch, seededQueue, 0.0, 0.0);
      TriageQueue.SamePrioritiesKeepOrder(erQueue, TriageQueue.UpdateQueueVitals(erQueue, queueItemId, patch));
      erQueue := TriageQueue.UpdateQueueVitals(erQueue, queueItemId, patch);
    }

    /** `handleSilenceAlarm`: restore the item, then clear and forget the repeat, then stop speech. */
    method SilenceAlarm(queueItemId: int)
      requires Valid()
      modifies this
      ensures Valid()
      ensures erQueue == TriageQueue.SilenceAlarm(old(erQueue), queueItemId, seededQueue)
      ensures Siren() == AlarmNotifier.Silence(old(Siren()))
      ensures speechIntervalRef.None? && runningRepeats == map[]
      ensures beds == old(beds)
    {
      TriageQueue.InPlaceHandlersKeepPriorities(erQueue, queueItemId, NoPatch(), seededQueue, 0.0, 0.0);
      TriageQueue.SamePrioritiesKeepOrder(erQueue, TriageQueue.SilenceAlarm(erQueue, queueItemId, seededQueue));
      AlarmNotifier.SilenceStopsSiren(Siren(), 0, false);
      erQueue := TriageQueue.SilenceAlarm(erQueue, queueItemId, seededQueue);
      if speechIntervalRef.Some? && speechIntervalRef.value != 0 {
        runningRepeats := runningRepeats - {speechIntervalRef.value};
        speechIntervalRef := None;
      }
      speech := speech + [AlarmNotifier.CancelSpeech];
    }

    /** One firing of the 15-second deterioration interval, with its two random draws. */
    method SimulationTick(coin: real, roll: real)
      requires Valid()
      requires 0.0 <= coin < 1.0 && 0.0 <= roll < 1.0
      modifies this
      ensures Valid()
      ensures erQueue == TriageQueue.DeteriorationTick(old(erQueue), coin, roll)
      ensures beds == old(beds) && Siren() == old(Siren())
    {
      TriageQueue.InPlaceHandlersKeepPriorities(erQueue, 0, NoPatch(), seededQueue, coin, roll);
      TriageQueue.SamePrioritiesKeepOrder(erQueue, TriageQueue.DeteriorationTick(erQueue, coin, roll));
      erQueue := TriageQueue.DeteriorationTick(erQueue, coin, roll);
    }

    /** The alarm effect body, run with the queue as it now is. */
    method AlarmEffect(speaking: bool)
      requires Valid()
      modifies this
      ensures Valid()
      ensures Siren() == AlarmNotifier.RunEffect(old(Siren()), erQueue, speaking)
      ensures erQueue == old(erQueue) && beds == old(beds)
    {
      AlarmNotifier.StepsKeepValid(Siren(), erQueue, speaking, 0);
      var alarming := TriageQueue.FirstAlarming(erQueue);
      if alarming.Some? && speechIntervalRef.None? {
        var bay := erQueue[alarming.value].bayNumber;
        speech := speech + AlarmNotifier.SpeakAlert(bay, speaking);
        runningRepeats := runningRepeats[nextTimerId := bay];
        speechIntervalRef := Some(nextTimerId);
        nextTimerId := nextTimerId + 1;
      } else if alarming.None? && speechIntervalRef.Some? {
        runningRepeats := runningRepeats - {speechIntervalRef.value};
        speechIntervalRef := None;
        speech := speech + [AlarmNotifier.CancelSpeech];
      }
    }

    /**
     * The cleanup returned by the alarm effect, as written: it clears the recorded interval
     * and stops speech but leaves `speechIntervalRef` holding the cleared id (see
     * `AlarmNotifier.StaleRefMutesSiren` for what that does to the next run).
     */
    method AlarmCleanup()
      requires Valid()
      modifies this
      ensures Valid()
      ensures Siren() == AlarmNotifier.Cleanup(old(Siren()))
      ensures speechIntervalRef == old(speechIntervalRef) && runningRepeats == map[]
      ensures erQueue == old(erQueue) && beds == old(beds)
    {
      if speechIntervalRef.Some? && speechIntervalRef.value != 0 {
        runningRepeats := runningRepeats - {speechIntervalRef.value};
      }
      speech := speech + [AlarmNotifier.CancelSpeech];
    }

    /** The corrected cleanup: clear the recorded interval and forget it, then stop speech. */
    method AlarmCleanupCorrected()
      requires Valid()
      modifies this
      ensures Valid()
      ensures Siren() == AlarmNotifier.CleanupClearingRef(old(Siren()))
      ensures speechIntervalRef.None? && runningRepeats == map[]
      ensures erQueue == old(erQueue) && beds == old(beds)
    {
      AlarmNotifier.SilenceStopsSiren(Siren(), 0, false);
      if speechIntervalRef.Some? && speechIntervalRef.value != 0 {
        runningRepeats := runningRepeats - {speechIntervalRef.value};
        speechIntervalRef := None;
      }
      speech := speech + [AlarmNotifier.CancelSpeech];
    }

    /** The browser firing interval `t`. */
    method FireInterval(t: nat, speaking: bool)
      requires Valid()
      modifies this
      ensures Valid()
      ensures Siren() == AlarmNotifier.Fire(old(Siren()), t, speaking)
      ensures erQueue == old(erQueue) && beds == old(beds)
    {
      if t in runningRepeats {
        speech := speech + AlarmNotifier.SpeakAlert(runningRepeats[t], speaking);
      }
    }
  }

  function NoPatch(): Vitals
  {
    Vitals(None, None, None, None, None)
  }
}
