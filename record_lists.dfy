/**
 * The list handlers for mortuary records, complaint tickets, ADR reports and lab tests:
 * an update replaces every entry carrying the updated record's id, and a new record is
 * put in front of the list.
 */
module RecordLists {
  import opened Wrappers
  import opened Decimal

  /** `prev.map(r => r.id === updated.id ? updated : r)` for any record type with an id. */
  function ReplaceById<T>(xs: seq<T>, idOf: T -> string, updated: T): (r: seq<T>)
    ensures |r| == |xs|
    ensures forall i :: 0 <= i < |xs| ==> r[i] == if idOf(xs[i]) == idOf(updated) then updated else xs[i]
  {
    seq(|xs|, i requires 0 <= i < |xs| => if idOf(xs[i]) == idOf(updated) then updated else xs[i])
  }

  /** `[newRecord, ...prev]`. */
  function AddRecord<T>(xs: seq<T>, x: T): (r: seq<T>)
    ensures |r| == |xs| + 1 && r[0] == x && r[1..] == xs
  {
    [x] + xs
  }

  function Ids<T>(xs: seq<T>, idOf: T -> string): (r: seq<string>)
    ensures |r| == |xs| && forall i :: 0 <= i < |xs| ==> r[i] == idOf(xs[i])
  {
    seq(|xs|, i requires 0 <= i < |xs| => idOf(xs[i]))
  }

  /** An update never changes which ids the list holds, nor their order. */
  lemma ReplaceByIdKeepsIds<T>(xs: seq<T>, idOf: T -> string, updated: T)
    ensures Ids(ReplaceById(xs, idOf, updated), idOf) == Ids(xs, idOf)
  {
  }

  /** Updating with a record whose id is in no entry leaves the list as it was. */
  lemma ReplaceUnknownIdIsNoOp<T>(xs: seq<T>, idOf: T -> string, updated: T)
    requires idOf(updated) !in Ids(xs, idOf)
    ensures ReplaceById(xs, idOf, updated) == xs
  {
    forall i | 0 <= i < |xs|
      ensures ReplaceById(xs, idOf, updated)[i] == xs[i]
    {
      assert Ids(xs, idOf)[i] == idOf(xs[i]);
    }
  }

  /** Saving the same record twice is the same as saving it once; saving two versions
      keeps only the later one. */
  lemma ReplaceByIdLastWins<T>(xs: seq<T>, idOf: T -> string, first: T, second: T)
    requires idOf(first) == idOf(second)
    ensures ReplaceById(ReplaceById(xs, idOf, first), idOf, second) == ReplaceById(xs, idOf, second)
  {
  }

  /** Editing a record just added with a fresh id edits only that front entry. */
  lemma EditAddedRecord<T>(xs: seq<T>, idOf: T -> string, x: T, edited: T)
    requires idOf(x) !in Ids(xs, idOf) && idOf(edited) == idOf(x)
    ensures ReplaceById(AddRecord(xs, x), idOf, edited) == AddRecord(xs, edited)
  {
    ReplaceUnknownIdIsNoOp(xs, idOf, edited);
    assert ReplaceById(AddRecord(xs, x), idOf, edited)[1..] == ReplaceById(xs, idOf, edited);
  }

  // ---------------------------------------------------------------- lab orders

  datatype LabTestStatus = Ordered | SampleCollected | InProgress | Completed | Cancelled

  datatype LabTest = LabTest(id: string, patientId: string, patientName: string, testName: string,
                             orderedBy: string, orderedAt: string, status: LabTestStatus)

  function LabTestId(test: LabTest): string
  {
    test.id
  }

  /** `lab-${Date.now()}`. */
  function LabTestIdAt(now: int): (id: string)
    ensures |id| > 4 && id[..4] == "lab-" && id[4..] == IntToDecimal(now)
  {
    "lab-" + IntToDecimal(now)
  }

  /** Orders made at different times get different ids. */
  lemma LabTestIdsDistinct(a: int, b: int)
    requires a != b
    ensures LabTestIdAt(a) != LabTestIdAt(b)
  {
    if LabTestIdAt(a) == LabTestIdAt(b) {
      IntToDecimalInjective(a, b);
    }
  }

  /**
   * `handleOrderLabTest`: nothing happens without a signed-in user; otherwise an `Ordered`
   * test, ordered by that user at `now`, goes in front of the list.
   */
  function OrderLabTest(tests: seq<LabTest>, userName: Option<string>, patientId: string, patientName: string,
                        testName: string, now: int, orderedAt: string): (r: seq<LabTest>)
    ensures userName.None? ==> r == tests
    ensures userName.Some? ==>
      && |r| == |tests| + 1 && r[1..] == tests
      && r[0].status == Ordered && r[0].id == LabTestIdAt(now)
      && r[0].patientId == patientId && r[0].testName == testName && r[0].orderedBy == userName.value
  {
    match userName
    case None => tests
    case Some(name) =>
      AddRecord(tests, LabTest(LabTestIdAt(now), patientId, patientName, testName, name, orderedAt, Ordered))
  }

  /** `handleUpdateLabTest`. */
  function UpdateLabTest(tests: seq<LabTest>, updated: LabTest): (r: seq<LabTest>)
    ensures Ids(r, LabTestId) == Ids(tests, LabTestId)
    ensures forall i :: 0 <= i < |r| ==> (r[i].id == updated.id ==> r[i] == updated)
                                         && (r[i].id != updated.id ==> r[i] == tests[i])
  {
    ReplaceById(tests, LabTestId, updated)
  }

  /** An order placed at a time no earlier order used can then be updated in place. */
  lemma UpdateNewLabOrder(tests: seq<LabTest>, userName: string, patientId: string, patientName: string,
                          testName: string, now: int, orderedAt: string, status: LabTestStatus)
    requires LabTestIdAt(now) !in Ids(tests, LabTestId)
    ensures var ordered := OrderLabTest(tests, Some(userName), patientId, patientName, testName, now, orderedAt);
      UpdateLabTest(ordered, ordered[0].(status := status)) == [ordered[0].(status := status)] + tests
  {
    var ordered := OrderLabTest(tests, Some(userName), patientId, patientName, testName, now, orderedAt);
    EditAddedRecord(tests, LabTestId, ordered[0], ordered[0].(status := status));
  }
}
