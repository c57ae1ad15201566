/** Small concrete runs of the ER handlers and of the spoken alarm. */
module Scenarios {
  import opened Wrappers
  import opened HospitalTypes
  import opened TriageQueue
  import opened Admission
  import opened AlarmNotifier

  const NoVitals: Vitals := Vitals(None, None, None, None, None)

  function Item(id: int, bay: int, p: TriagePriority, alarming: bool): QueueItem
  {
    QueueItem(id, bay, "c", NoVitals, TriageResult(p, "r"), alarming)
  }

  function Ward(id: string, status: BedStatus, patientId: Option<string>): Bed
  {
    Bed(id, "ER", 1, status, patientId)
  }

  /** An URGENT arrival goes between a CRITICAL and a NON_URGENT item. */
  lemma UrgentArrivalGoesBetween(a: QueueItem, b: QueueItem, c: QueueItem)
    requires a.result.priority == CRITICAL && b.result.priority == NON_URGENT && c.result.priority == URGENT
    ensures AddToQueue([a, b], c) == [a, c, b]
  {
    CriticalThenNonUrgentSorted(a, b);
    AddToSortedQueueIsInsert([a, b], c);
    InsertUrgentBetween(a, b, c);
  }

  lemma CriticalThenNonUrgentSorted(a: QueueItem, b: QueueItem)
    requires a.result.priority == CRITICAL && b.result.priority == NON_URGENT
    ensures SortedByPriority([a, b])
  {
    forall i, j | 0 <= i < j < 2 ensures Key([a, b][i]) <= Key([a, b][j]) {
      assert i == 0 && j == 1;
    }
  }

  lemma InsertUrgentBetween(a: QueueItem, b: QueueItem, c: QueueItem)
    requires a.result.priority == CRITICAL && b.result.priority == NON_URGENT && c.result.priority == URGENT
    ensures Insert([a, b], c) == [a, c, b]
  {
    InsertBetween([a], [b], c);
    assert [a] + [b] == [a, b];
    assert [a] + [c] + [b] == [a, c, b];
  }

  /**
   * Admitting the CRITICAL item of that queue fills the only Available bed with `ER-1` and
   * leaves the other two items queued in order.
   */
  lemma AdmitFirstOfThree()
    ensures var r := AdmitPatientFromQueue([Ward("b1", Available, None), Ward("b2", Occupied, Some("p1"))],
                                           [Item(1, 1, CRITICAL, false), Item(3, 3, URGENT, false), Item(2, 2, NON_URGENT, false)], 1);
      && r.admitted
      && r.beds == [Ward("b1", Occupied, Some("ER-1")), Ward("b2", Occupied, Some("p1"))]
      && r.queue == [Item(3, 3, URGENT, false), Item(2, 2, NON_URGENT, false)]
  {
    var a, b, c := Item(1, 1, CRITICAL, false), Item(2, 2, NON_URGENT, false), Item(3, 3, URGENT, false);
    var q := [a, c, b];
    assert Decimal.NatToDecimal(1) == "1";
    assert ErPatientId(1) == "ER-1";
    var beds := [Ward("b1", Available, None), Ward("b2", Occupied, Some("p1"))];
    assert FirstAvailable(beds) == Some(0);
    var r := AdmitPatientFromQueue(beds, q, 1);
    assert r.beds == [Ward("b1", Occupied, Some("ER-1")), Ward("b2", Occupied, Some("p1"))];
    assert q[..2] == [a, c] && q[..1] == [a];
    assert RemoveFromQueue([a], 1) == [];
    assert RemoveFromQueue([a, c], 1) == [c];
    assert r.queue == [c, b];
  }

  /** With every bed taken, admission reports failure and changes nothing. */
  lemma AdmitWithNoFreeBed(q: seq<QueueItem>, id: int)
    ensures var beds := [Ward("b1", Occupied, Some("p1")), Ward("b2", Cleaning, None)];
      AdmitPatientFromQueue(beds, q, id) == AdmissionResult(false, beds, q)
  {
    var beds := [Ward("b1", Occupied, Some("p1")), Ward("b2", Cleaning, None)];
    assert FirstAvailable(beds) == None;
  }

  /**
   * The stale-ref scenario: bay 2 starts alarming, so interval 1 starts repeating. Another
   * patient then joins the queue while bay 2 still alarms. The cleanup clears interval 1 but
   * the ref still holds 1, so the effect starts nothing and interval 1 never speaks again.
   * With the corrected cleanup a new repeat (interval 2) announces bay 2.
   */
  lemma StaleRefScenario()
    ensures var q1 := [Item(10, 2, URGENT, true)];
      var q2 := q1 + [Item(11, 4, NON_URGENT, false)];
      var s1 := RunEffect(Silent, q1, false);
      && s1 == Siren(Some(1), map[1 := 2], 2, [Speak(2)])
      && Rerender(s1, q2, false) == Siren(Some(1), map[], 2, [Speak(2), CancelSpeech])
      && Fire(Rerender(s1, q2, false), 1, false) == Rerender(s1, q2, false)
      && RerenderClearingRef(s1, q2, false) == Siren(Some(2), map[2 := 2], 3, [Speak(2), CancelSpeech, Speak(2)])
      && Fire(RerenderClearingRef(s1, q2, false), 2, false).speech == [Speak(2), CancelSpeech, Speak(2), Speak(2)]
  {
    var x, y := Item(10, 2, URGENT, true), Item(11, 4, NON_URGENT, false);
    assert FirstAlarming([x]) == Some(0);
    assert [x] + [y] == [x, y];
    StaleRefSteps();
    CorrectedSteps();
  }

  /** The as-written half: the cleanup keeps ref 1 and the effect starts nothing. */
  lemma StaleRefSteps()
    ensures var s1 := Siren(Some(1), map[1 := 2], 2, [Speak(2)]);
      var q2 := [Item(10, 2, URGENT, true), Item(11, 4, NON_URGENT, false)];
      && Rerender(s1, q2, false) == Siren(Some(1), map[], 2, [Speak(2), CancelSpeech])
      && Fire(Rerender(s1, q2, false), 1, false) == Rerender(s1, q2, false)
  {
    var s1 := Siren(Some(1), map[1 := 2], 2, [Speak(2)]);
    var q2 := [Item(10, 2, URGENT, true), Item(11, 4, NON_URGENT, false)];
    assert FirstAlarming(q2) == Some(0);
    var c := Cleanup(s1);
    assert c.running == map[];
    assert c == Siren(Some(1), map[], 2, [Speak(2), CancelSpeech]);
    assert RunEffect(c, q2, false) == c;
  }

  /** The corrected half: the cleanup forgets ref 1 and the effect starts interval 2 for bay 2. */
  lemma CorrectedSteps()
    ensures var s1 := Siren(Some(1), map[1 := 2], 2, [Speak(2)]);
      var q2 := [Item(10, 2, URGENT, true), Item(11, 4, NON_URGENT, false)];
      && RerenderClearingRef(s1, q2, false) == Siren(Some(2), map[2 := 2], 3, [Speak(2), CancelSpeech, Speak(2)])
      && Fire(RerenderClearingRef(s1, q2, false), 2, false).speech == [Speak(2), CancelSpeech, Speak(2), Speak(2)]
  {
    var s1 := Siren(Some(1), map[1 := 2], 2, [Speak(2)]);
    var q2 := [Item(10, 2, URGENT, true), Item(11, 4, NON_URGENT, false)];
    assert FirstAlarming(q2) == Some(0);
    var c := CleanupClearingRef(s1);
    assert c.running == map[];
    assert c == Siren(None, map[], 2, [Speak(2), CancelSpeech]);
    var r := RunEffect(c, q2, false);
    assert r == Siren(Some(2), map[2 := 2], 3, [Speak(2), CancelSpeech] + [Speak(2)]);
    assert Fire(r, 2, false).speech == r.speech + [Speak(2)];
  }
}
