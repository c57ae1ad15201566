/**
 * The bed pool and `handleAdmitPatientFromQueue`: take the first Available bed in pool
 * order, occupy it for the synthetic patient `ER-<queue item id>`, and drop every queue
 * item with that id.
 */
module Admission {
  import opened Wrappers
  import opened HospitalTypes
  import Decimal
  import TriageQueue
  import Fixtures

  /** A bed holds a patient exactly when it is Occupied. */
  ghost predicate BedsConsistent(beds: seq<Bed>)
  {
    forall i :: 0 <= i < |beds| ==> (beds[i].patientId.Some? <==> beds[i].status == Occupied)
  }

  ghost predicate UniqueBedIds(beds: seq<Bed>)
  {
    forall i, j :: 0 <= i < j < |beds| ==> beds[i].id != beds[j].id
  }

  /** `beds.find(b => b.status === BedStatus.Available)`, as an index into the pool. */
  function FirstAvailable(beds: seq<Bed>): (r: Option<nat>)
    ensures r.Some? ==> r.value < |beds| && beds[r.value].status == Available
                        && forall j :: 0 <= j < r.value ==> beds[j].status != Available
    ensures r.None? ==> forall j :: 0 <= j < |beds| ==> beds[j].status != Available
  {
    if beds == [] then None
    else if beds[0].status == Available then Some(0)
    else match FirstAvailable(beds[1..])
      case None => None
      case Some(k) => Some(k + 1)
  }

  function CountAvailable(beds: seq<Bed>): nat
  {
    if beds == [] then 0
    else CountAvailable(beds[..|beds| - 1]) + (if beds[|beds| - 1].status == Available then 1 else 0)
  }

  /** The occupant recorded for an admitted queue item: `ER-${queueItemId}`. */
  function ErPatientId(queueItemId: int): (r: string)
    ensures |r| > 3 && r[..3] == "ER-" && r[3..] == Decimal.IntToDecimal(queueItemId)
  {
    "ER-" + Decimal.IntToDecimal(queueItemId)
  }

  /** Distinct queue items never share a synthetic occupant id. */
  lemma ErPatientIdInjective(a: int, b: int)
    ensures ErPatientId(a) == ErPatientId(b) ==> a == b
  {
    if ErPatientId(a) == ErPatientId(b) {
      Decimal.IntToDecimalInjective(a, b);
    }
  }

  /** The bed update of the admission: every bed carrying `bedId` becomes Occupied by `occupant`. */
  function OccupyBed(beds: seq<Bed>, bedId: string, occupant: string): (r: seq<Bed>)
    ensures |r| == |beds|
    ensures forall i :: 0 <= i < |beds| && beds[i].id != bedId ==> r[i] == beds[i]
    ensures forall i :: 0 <= i < |beds| && beds[i].id == bedId ==>
              r[i] == beds[i].(status := Occupied, patientId := Some(occupant))
  {
    seq(|beds|, i requires 0 <= i < |beds| =>
      if beds[i].id == bedId then beds[i].(status := Occupied, patientId := Some(occupant)) else beds[i])
  }

  datatype AdmissionResult = AdmissionResult(admitted: bool, beds: seq<Bed>, queue: seq<QueueItem>)

  /** `handleAdmitPatientFromQueue`, with its two state updates applied in turn. */
  function AdmitPatientFromQueue(beds: seq<Bed>, queue: seq<QueueItem>, queueItemId: int): (r: AdmissionResult)
    ensures r.admitted <==> exists i :: 0 <= i < |beds| && beds[i].status == Available
    ensures !r.admitted ==> r.beds == beds && r.queue == queue
    ensures r.admitted ==> r.queue == TriageQueue.RemoveFromQueue(queue, queueItemId)
    ensures |r.beds| == |beds| && forall i :: 0 <= i < |beds| ==> r.beds[i].id == beds[i].id
  {
    match FirstAvailable(beds)
    case None => AdmissionResult(false, beds, queue)
    case Some(k) =>
      AdmissionResult(true, OccupyBed(beds, beds[k].id, ErPatientId(queueItemId)),
                      TriageQueue.RemoveFromQueue(queue, queueItemId))
  }

  /**
   * Admission succeeds exactly when some bed is Available. On failure beds and queue are
   * returned unchanged. On success the queue loses exactly the items with that id, the
   * other items keep their order and copies (`TriageQueue.RemoveFromQueueAppend`), and (bed
   * ids being unique) the first Available bed and no other becomes Occupied by `ER-<id>`.
   */
  lemma AdmitSpec(beds: seq<Bed>, queue: seq<QueueItem>, id: int)
    requires UniqueBedIds(beds)
    ensures var r := AdmitPatientFromQueue(beds, queue, id);
      && (r.admitted <==> exists i :: 0 <= i < |beds| && beds[i].status == Available)
      && (!r.admitted ==> r.beds == beds && r.queue == queue)
      && (r.admitted ==>
            var k := FirstAvailable(beds).value;
            && r.beds == beds[k := beds[k].(status := Occupied, patientId := Some(ErPatientId(id)))]
            && r.queue == TriageQueue.RemoveFromQueue(queue, id))
  {
    var r := AdmitPatientFromQueue(beds, queue, id);
    if r.admitted {
      var k := FirstAvailable(beds).value;
      assert forall i :: 0 <= i < |beds| && i != k ==> beds[i].id != beds[k].id;
    }
  }

  /**
   * The handler never checks that the id is queued: with an unknown id a bed is still
   * consumed while the queue stays as it was.
   */
  lemma AdmitUnknownIdStillOccupiesBed(beds: seq<Bed>, queue: seq<QueueItem>, id: int)
    requires forall i :: 0 <= i < |queue| ==> queue[i].id != id
    requires exists i :: 0 <= i < |beds| && beds[i].status == Available
    ensures var r := AdmitPatientFromQueue(beds, queue, id);
      r.admitted && r.queue == queue
      && CountAvailable(r.beds) < CountAvailable(beds)
  {
    TriageQueue.RemoveUnknownIdIsNoOp(queue, id);
    var k := FirstAvailable(beds).value;
    OccupyLowersAvailable(beds, beds[k].id, ErPatientId(id), k);
  }

  lemma OccupyPrefix(beds: seq<Bed>, bedId: string, occupant: string, n: nat)
    requires n <= |beds|
    ensures OccupyBed(beds, bedId, occupant)[..n] == OccupyBed(beds[..n], bedId, occupant)
  {
  }

  /** Occupying the beds with a given id removes at least that Available bed from the count. */
  lemma {:induction false} OccupyLowersAvailable(beds: seq<Bed>, bedId: string, occupant: string, k: nat)
    requires k < |beds| && beds[k].id == bedId && beds[k].status == Available
    ensures CountAvailable(OccupyBed(beds, bedId, occupant)) < CountAvailable(beds)
  {
    var n := |beds| - 1;
    var r := OccupyBed(beds, bedId, occupant);
    OccupyPrefix(beds, bedId, occupant, n);
    OccupyNeverAddsAvailable(beds[..n], bedId, occupant);
    if k < n {
      OccupyLowersAvailable(beds[..n], bedId, occupant, k);
    }
  }

  lemma {:induction false} OccupyNeverAddsAvailable(beds: seq<Bed>, bedId: string, occupant: string)
    ensures CountAvailable(OccupyBed(beds, bedId, occupant)) <= CountAvailable(beds)
  {
    if beds != [] {
      var n := |beds| - 1;
      OccupyPrefix(beds, bedId, occupant, n);
      OccupyNeverAddsAvailable(beds[..n], bedId, occupant);
    }
  }

  /** Admission keeps "a bed holds a patient exactly when it is Occupied". */
  lemma AdmitKeepsBedsConsistent(beds: seq<Bed>, queue: seq<QueueItem>, id: int)
    requires BedsConsistent(beds)
    ensures BedsConsistent(AdmitPatientFromQueue(beds, queue, id).beds)
  {
  }

  /** Admission keeps the queue in priority order. */
  lemma AdmitKeepsQueueOrder(beds: seq<Bed>, queue: seq<QueueItem>, id: int)
    requires TriageQueue.SortedByPriority(queue)
    ensures TriageQueue.SortedByPriority(AdmitPatientFromQueue(beds, queue, id).queue)
  {
    if FirstAvailable(beds).Some? {
      TriageQueue.RemoveFromQueueKeepsOrder(queue, id);
    }
  }

  // ---------------------------------------------------------------- no double allocation

  /** Occupying one Available bed, ids being unique, lowers the Available count by exactly one. */
  lemma {:induction false} OccupyUniqueLowersByOne(beds: seq<Bed>, k: nat, occupant: string)
    requires UniqueBedIds(beds)
    requires k < |beds| && beds[k].status == Available
    ensures CountAvailable(OccupyBed(beds, beds[k].id, occupant)) == CountAvailable(beds) - 1
  {
    var n := |beds| - 1;
    var bedId := beds[k].id;
    var r := OccupyBed(beds, bedId, occupant);
    var prefix := beds[..n];
    OccupyPrefix(beds, bedId, occupant, n);
    assert CountAvailable(r) == CountAvailable(r[..n]) + (if r[n].status == Available then 1 else 0);
    assert CountAvailable(beds) == CountAvailable(prefix) + (if beds[n].status == Available then 1 else 0);
    assert UniqueBedIds(prefix) by {
      forall i, j | 0 <= i < j < |prefix| ensures prefix[i].id != prefix[j].id {
        assert prefix[i] == beds[i] && prefix[j] == beds[j];
      }
    }
    if k < n {
      assert prefix[k] == beds[k];
      assert beds[n].id != bedId;
      OccupyUniqueLowersByOne(prefix, k, occupant);
    } else {
      forall i | 0 <= i < n ensures prefix[i].id != bedId {
        assert prefix[i] == beds[i];
      }
      assert OccupyBed(prefix, bedId, occupant) == prefix;
    }
  }

  lemma {:induction false} NoAvailableMeansZero(beds: seq<Bed>)
    ensures CountAvailable(beds) == 0 <==> forall i :: 0 <= i < |beds| ==> beds[i].status != Available
  {
    if beds != [] {
      NoAvailableMeansZero(beds[..|beds| - 1]);
      assert forall i :: 0 <= i < |beds| - 1 ==> beds[..|beds| - 1][i] == beds[i];
    }
  }

  /** A run of admission requests, one after another, counting the successes. */
  function AdmitEach(beds: seq<Bed>, queue: seq<QueueItem>, ids: seq<int>): (r: (nat, seq<Bed>, seq<QueueItem>))
    ensures r.0 <= |ids|
    ensures |r.1| == |beds| && forall i :: 0 <= i < |beds| ==> r.1[i].id == beds[i].id
    decreases |ids|
  {
    if ids == [] then (0, beds, queue)
    else
      var r := AdmitPatientFromQueue(beds, queue, ids[0]);
      var rest := AdmitEach(r.beds, r.queue, ids[1..]);
      ((if r.admitted then 1 else 0) + rest.0, rest.1, rest.2)
  }

  function Min(a: nat, b: nat): nat { if a <= b then a else b }

  /**
   * No bed is handed out twice: of any run of admission requests, exactly as many succeed
   * as there were Available beds (or requests, if fewer).
   */
  lemma {:induction false} AdmitEachSucceedsPerAvailableBed(beds: seq<Bed>, queue: seq<QueueItem>, ids: seq<int>)
    requires UniqueBedIds(beds)
    ensures AdmitEach(beds, queue, ids).0 == Min(|ids|, CountAvailable(beds))
    decreases |ids|
  {
    if ids != [] {
      var r := AdmitPatientFromQueue(beds, queue, ids[0]);
      NoAvailableMeansZero(beds);
      if FirstAvailable(beds).Some? {
        var k := FirstAvailable(beds).value;
        OccupyUniqueLowersByOne(beds, k, ErPatientId(ids[0]));
        assert forall i :: 0 <= i < |beds| ==> r.beds[i].id == beds[i].id;
      }
      AdmitEachSucceedsPerAvailableBed(r.beds, r.queue, ids[1..]);
    }
  }

  /** The seeded bed pool satisfies the occupancy invariant and has no two beds with one id. */
  lemma MockBedsConsistent()
    ensures BedsConsistent(Fixtures.MockBeds())
    ensures UniqueBedIds(Fixtures.MockBeds())
  {
  }

  /** Admission keeps every bed's id, so bed ids stay unique. */
  lemma AdmitKeepsBedIdsUnique(beds: seq<Bed>, queue: seq<QueueItem>, id: int)
    requires UniqueBedIds(beds)
    ensures UniqueBedIds(AdmitPatientFromQueue(beds, queue, id).beds)
  {
  }
}
