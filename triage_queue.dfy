/**
 * The emergency-room triage queue: the priority order, the stable re-sort applied on
 * start-up and on every insertion, and the handlers that rewrite queue items in place
 * of the old list (vitals merge, alarm silencing, the deterioration tick).
 */
module TriageQueue {
  import opened Wrappers
  import opened HospitalTypes
  import Fixtures

  // ---------------------------------------------------------------- priority order

  /** The `priorityOrder` table: CRITICAL is served first, NON_URGENT last. */
  function Rank(p: TriagePriority): nat
  {
    match p
    case CRITICAL => 0
    case URGENT => 1
    case NON_URGENT => 2
  }

  function Key(x: QueueItem): nat
  {
    Rank(x.result.priority)
  }

  ghost predicate SortedByPriority(q: seq<QueueItem>)
  {
    forall i, j :: 0 <= i < j < |q| ==> Key(q[i]) <= Key(q[j])
  }

  /** The items of priority `p`, in queue order. */
  function OfPriority(q: seq<QueueItem>, p: TriagePriority): (r: seq<QueueItem>)
    ensures |r| <= |q|
    ensures forall i :: 0 <= i < |r| ==> r[i].result.priority == p
  {
    if q == [] then []
    else OfPriority(q[..|q| - 1], p) + (if q[|q| - 1].result.priority == p then [q[|q| - 1]] else [])
  }

  /**
   * The reference order a stable sort by priority must produce: all CRITICAL items, then
   * all URGENT ones, then all NON_URGENT ones, each group in its original order.
   */
  function PriorityBuckets(q: seq<QueueItem>): seq<QueueItem>
  {
    OfPriority(q, CRITICAL) + OfPriority(q, URGENT) + OfPriority(q, NON_URGENT)
  }

  // ---------------------------------------------------------------- the stable sort

  /** Puts `x` after every item whose rank does not exceed its own, before the first higher one. */
  function Insert(q: seq<QueueItem>, x: QueueItem): (r: seq<QueueItem>)
    ensures multiset(r) == multiset(q) + multiset{x}
  {
    if q == [] then [x]
    else if Key(q[0]) > Key(x) then [x] + q
    else
      assert q == [q[0]] + q[1..];
      [q[0]] + Insert(q[1..], x)
  }

  /**
   * `Array.prototype.sort` with the comparator `rank(a) - rank(b)`. The sort is stable
   * (required since ECMAScript 2019), so its result is fully determined; it is computed
   * here by inserting the items one at a time, the last one after all earlier ones.
   */
  function SortByPriority(q: seq<QueueItem>): (r: seq<QueueItem>)
    ensures multiset(r) == multiset(q)
  {
    assert q != [] ==> q == q[..|q| - 1] + [q[|q| - 1]];
    if q == [] then [] else Insert(SortByPriority(q[..|q| - 1]), q[|q| - 1])
  }

  /** `handleAddToQueue`: append the new item, then re-sort the whole queue. */
  function AddToQueue(q: seq<QueueItem>, item: QueueItem): (r: seq<QueueItem>)
    ensures multiset(r) == multiset(q) + multiset{item}
  {
    SortByPriority(q + [item])
  }

  /** The queue the dashboard starts with: the seeded cases, sorted the same way. */
  function InitialQueue(now: int): (r: seq<QueueItem>)
    ensures multiset(r) == multiset(Fixtures.MockErQueue(now))
  {
    SortByPriority(Fixtures.MockErQueue(now))
  }

  // ---------------------------------------------------------------- sort lemmas

  lemma {:induction false} InsertAfterLowerOrEqual(a: seq<QueueItem>, b: seq<QueueItem>, x: QueueItem)
    requires forall i :: 0 <= i < |a| ==> Key(a[i]) <= Key(x)
    ensures Insert(a + b, x) == a + Insert(b, x)
  {
    if a != [] {
      assert (a + b)[1..] == a[1..] + b;
      InsertAfterLowerOrEqual(a[1..], b, x);
      assert a == [a[0]] + a[1..];
    } else {
      assert a + b == b;
    }
  }

  lemma UniformOfPriority(q: seq<QueueItem>, p: TriagePriority)
    requires forall i :: 0 <= i < |q| ==> q[i].result.priority == p
    ensures OfPriority(q, p) == q
    ensures forall p' :: p' != p ==> OfPriority(q, p') == []
  {
    if q != [] {
      UniformOfPriority(q[..|q| - 1], p);
      assert q == q[..|q| - 1] + [q[|q| - 1]];
    }
  }

  lemma {:induction false} OfPriorityAppend(a: seq<QueueItem>, b: seq<QueueItem>, p: TriagePriority)
    ensures OfPriority(a + b, p) == OfPriority(a, p) + OfPriority(b, p)
    decreases |b|
  {
    if b == [] {
      assert a + b == a;
    } else {
      var b' := b[..|b| - 1];
      assert (a + b)[..|a + b| - 1] == a + b';
      OfPriorityAppend(a, b', p);
    }
  }

  /** Each bucket is exactly the items of its priority, so the concatenation splits back. */
  lemma OfPriorityOfBuckets(q: seq<QueueItem>, p: TriagePriority)
    ensures OfPriority(PriorityBuckets(q), p) == OfPriority(q, p)
  {
    var c, u, n := OfPriority(q, CRITICAL), OfPriority(q, URGENT), OfPriority(q, NON_URGENT);
    UniformOfPriority(c, CRITICAL);
    UniformOfPriority(u, URGENT);
    UniformOfPriority(n, NON_URGENT);
    assert PriorityBuckets(q) == (c + u) + n;
    OfPriorityAppend(c + u, n, p);
    OfPriorityAppend(c, u, p);
    match p
    case CRITICAL =>
      assert OfPriority(u, p) == [] && OfPriority(n, p) == [];
    case URGENT =>
      assert OfPriority(c, p) == [] && OfPriority(n, p) == [];
    case NON_URGENT =>
      assert OfPriority(c, p) == [] && OfPriority(u, p) == [];
  }

  lemma OfPrioritySnoc(s: seq<QueueItem>, x: QueueItem, p: TriagePriority)
    ensures OfPriority(s + [x], p) == OfPriority(s, p) + (if x.result.priority == p then [x] else [])
  {
    assert (s + [x])[..|s + [x]| - 1] == s;
  }

  /** Insertion between a part of lower-or-equal rank and a part of strictly higher rank. */
  lemma InsertBetween(a: seq<QueueItem>, b: seq<QueueItem>, x: QueueItem)
    requires forall i :: 0 <= i < |a| ==> Key(a[i]) <= Key(x)
    requires forall i :: 0 <= i < |b| ==> Key(b[i]) > Key(x)
    ensures Insert(a + b, x) == a + [x] + b
  {
    InsertAfterLowerOrEqual(a, b, x);
  }

  lemma KeysOfPriority(q: seq<QueueItem>, p: TriagePriority)
    ensures forall i :: 0 <= i < |OfPriority(q, p)| ==> Key(OfPriority(q, p)[i]) == Rank(p)
  {
  }

  /** Inserting the next item into the buckets of a prefix yields the buckets of the extended queue. */
  lemma InsertIntoBuckets(s: seq<QueueItem>, x: QueueItem)
    ensures Insert(PriorityBuckets(s), x) == PriorityBuckets(s + [x])
  {
    var c, u, n := OfPriority(s, CRITICAL), OfPriority(s, URGENT), OfPriority(s, NON_URGENT);
    var c', u', n' := OfPriority(s + [x], CRITICAL), OfPriority(s + [x], URGENT), OfPriority(s + [x], NON_URGENT);
    OfPrioritySnoc(s, x, CRITICAL);
    OfPrioritySnoc(s, x, URGENT);
    OfPrioritySnoc(s, x, NON_URGENT);
    KeysOfPriority(s, CRITICAL);
    KeysOfPriority(s, URGENT);
    KeysOfPriority(s, NON_URGENT);
    InsertIntoThreeBuckets(c, u, n, x);
    assert PriorityBuckets(s) == c + u + n;
    assert PriorityBuckets(s + [x]) == c' + u' + n';
    match x.result.priority
    case CRITICAL =>
      assert c' == c + [x] && u' == u && n' == n;
    case URGENT =>
      assert c' == c && u' == u + [x] && n' == n;
    case NON_URGENT =>
      assert c' == c && u' == u && n' == n + [x];
  }

  lemma InsertIntoThreeBuckets(c: seq<QueueItem>, u: seq<QueueItem>, n: seq<QueueItem>, x: QueueItem)
    requires forall i :: 0 <= i < |c| ==> Key(c[i]) == 0
    requires forall i :: 0 <= i < |u| ==> Key(u[i]) == 1
    requires forall i :: 0 <= i < |n| ==> Key(n[i]) == 2
    ensures Key(x) == 0 ==> Insert(c + u + n, x) == (c + [x]) + u + n
    ensures Key(x) == 1 ==> Insert(c + u + n, x) == c + (u + [x]) + n
    ensures Key(x) == 2 ==> Insert(c + u + n, x) == c + u + (n + [x])
  {
    if Key(x) == 0 {
      InsertIntoFirstBucket(c, u, n, x);
    } else if Key(x) == 1 {
      InsertIntoMiddleBucket(c, u, n, x);
    } else if Key(x) == 2 {
      InsertIntoLastBucket(c, u, n, x);
    }
  }

  lemma InsertIntoFirstBucket(c: seq<QueueItem>, u: seq<QueueItem>, n: seq<QueueItem>, x: QueueItem)
    requires forall i :: 0 <= i < |c| ==> Key(c[i]) == 0
    requires forall i :: 0 <= i < |u| ==> Key(u[i]) == 1
    requires forall i :: 0 <= i < |n| ==> Key(n[i]) == 2
    requires Key(x) == 0
    ensures Insert(c + u + n, x) == (c + [x]) + u + n
  {
    var b := u + n;
    forall i | 0 <= i < |b| ensures Key(b[i]) > Key(x) {
      if i < |u| { assert b[i] == u[i]; } else { assert b[i] == n[i - |u|]; }
    }
    InsertBetween(c, b, x);
    assert c + u + n == c + b;
    assert (c + [x]) + u + n == c + [x] + b;
  }

  lemma InsertIntoMiddleBucket(c: seq<QueueItem>, u: seq<QueueItem>, n: seq<QueueItem>, x: QueueItem)
    requires forall i :: 0 <= i < |c| ==> Key(c[i]) == 0
    requires forall i :: 0 <= i < |u| ==> Key(u[i]) == 1
    requires forall i :: 0 <= i < |n| ==> Key(n[i]) == 2
    requires Key(x) == 1
    ensures Insert(c + u + n, x) == c + (u + [x]) + n
  {
    var a := c + u;
    assert forall i :: 0 <= i < |a| ==> Key(a[i]) <= 1;
    InsertAfterLowerOrEqual(a, n, x);
  }

  lemma InsertIntoLastBucket(c: seq<QueueItem>, u: seq<QueueItem>, n: seq<QueueItem>, x: QueueItem)
    requires forall i :: 0 <= i < |c| ==> Key(c[i]) == 0
    requires forall i :: 0 <= i < |u| ==> Key(u[i]) == 1
    requires forall i :: 0 <= i < |n| ==> Key(n[i]) == 2
    requires Key(x) == 2
    ensures Insert(c + u + n, x) == c + u + (n + [x])
  {
    var b := c + u + n;
    assert forall i :: 0 <= i < |b| ==> Key(b[i]) <= 2;
    InsertAfterLowerOrEqual(b, [], x);
    assert b + [] == b;
  }

  /** The insertion sort and the bucket order agree on every queue. */
  lemma {:induction false} SortIsPriorityBuckets(q: seq<QueueItem>)
    ensures SortByPriority(q) == PriorityBuckets(q)
  {
    if q != [] {
      var s, x := q[..|q| - 1], q[|q| - 1];
      assert s + [x] == q;
      calc {
        SortByPriority(q);
        Insert(SortByPriority(s), x);
        { SortIsPriorityBuckets(s); }
        Insert(PriorityBuckets(s), x);
        { InsertIntoBuckets(s, x); }
        PriorityBuckets(q);
      }
    }
  }

  lemma PriorityBucketsSorted(q: seq<QueueItem>)
    ensures SortedByPriority(PriorityBuckets(q))
  {
    var c, u, n := OfPriority(q, CRITICAL), OfPriority(q, URGENT), OfPriority(q, NON_URGENT);
    var b := PriorityBuckets(q);
    forall i | 0 <= i < |b|
      ensures Key(b[i]) == (if i < |c| then 0 else if i < |c| + |u| then 1 else 2)
    {
      if i < |c| { assert b[i] == c[i]; }
      else if i < |c| + |u| { assert b[i] == u[i - |c|]; }
      else { assert b[i] == n[i - |c| - |u|]; }
    }
  }

  /**
   * What the stable re-sort guarantees: the result is a permutation of its input, ordered
   * CRITICAL before URGENT before NON_URGENT, and the items of each priority keep their
   * relative order.
   */
  lemma SortByPrioritySpec(q: seq<QueueItem>)
    ensures multiset(SortByPriority(q)) == multiset(q)
    ensures SortedByPriority(SortByPriority(q))
    ensures forall p :: OfPriority(SortByPriority(q), p) == OfPriority(q, p)
  {
    SortIsPriorityBuckets(q);
    PriorityBucketsSorted(q);
    forall p ensures OfPriority(SortByPriority(q), p) == OfPriority(q, p) {
      OfPriorityOfBuckets(q, p);
    }
  }

  /** `handleAddToQueue`: the old queue plus the new item, priority-ordered, ties in arrival order. */
  lemma AddToQueueSpec(q: seq<QueueItem>, item: QueueItem)
    ensures multiset(AddToQueue(q, item)) == multiset(q) + multiset{item}
    ensures SortedByPriority(AddToQueue(q, item))
    ensures forall p :: OfPriority(AddToQueue(q, item), p)
                        == OfPriority(q, p) + (if item.result.priority == p then [item] else [])
  {
    SortByPrioritySpec(q + [item]);
    assert (q + [item])[..|q + [item]| - 1] == q;
  }

  /** Re-sorting an already ordered queue leaves it as it is. */
  lemma {:induction false} SortedIsFixed(q: seq<QueueItem>)
    requires SortedByPriority(q)
    ensures SortByPriority(q) == q
  {
    if q != [] {
      var s, x := q[..|q| - 1], q[|q| - 1];
      assert q == s + [x];
      SortedSplitsLast(s, x);
      SortedIsFixed(s);
      SortSnoc(s, x);
      InsertAfterLowerOrEqual(s, [], x);
      assert s + [] == s;
    }
  }

  /** An ordered queue without its last item is ordered, and no item outranks that last one. */
  lemma SortedSplitsLast(s: seq<QueueItem>, x: QueueItem)
    requires SortedByPriority(s + [x])
    ensures SortedByPriority(s)
    ensures forall i :: 0 <= i < |s| ==> Key(s[i]) <= Key(x)
  {
    var q := s + [x];
    forall i, j | 0 <= i < j < |s| ensures Key(s[i]) <= Key(s[j]) {
      assert s[i] == q[i] && s[j] == q[j];
    }
    forall i | 0 <= i < |s| ensures Key(s[i]) <= Key(x) {
      assert s[i] == q[i] && x == q[|s|];
    }
  }

  lemma SortSnoc(s: seq<QueueItem>, x: QueueItem)
    ensures SortByPriority(s + [x]) == Insert(SortByPriority(s), x)
  {
    assert (s + [x])[..|s + [x]| - 1] == s;
  }

  /**
   * On an ordered queue the full re-sort of `handleAddToQueue` equals a single stable
   * insertion: the new item goes after every item of equal or higher urgency.
   */
  lemma AddToSortedQueueIsInsert(q: seq<QueueItem>, item: QueueItem)
    requires SortedByPriority(q)
    ensures AddToQueue(q, item) == Insert(q, item)
  {
    assert (q + [item])[..|q + [item]| - 1] == q;
    SortedIsFixed(q);
  }

  // ---------------------------------------------------------------- finding items

  /** The index of the first alarming item (`erQueue.find(p => p.isAlarming)`). */
  function FirstAlarming(q: seq<QueueItem>): (r: Option<nat>)
    ensures r.Some? ==> r.value < |q| && q[r.value].isAlarming
                        && forall j :: 0 <= j < r.value ==> !q[j].isAlarming
    ensures r.None? ==> forall j :: 0 <= j < |q| ==> !q[j].isAlarming
  {
    if q == [] then None
    else if q[0].isAlarming then Some(0)
    else match FirstAlarming(q[1..])
      case None => None
      case Some(k) => Some(k + 1)
  }

  /** The index of the first item seated in `bay` (`MOCK_ER_QUEUE.find(p => p.bayNumber === bay)`). */
  function FindByBay(q: seq<QueueItem>, bay: int): (r: Option<nat>)
    ensures r.Some? ==> r.value < |q| && q[r.value].bayNumber == bay
                        && forall j :: 0 <= j < r.value ==> q[j].bayNumber != bay
    ensures r.None? ==> forall j :: 0 <= j < |q| ==> q[j].bayNumber != bay
  {
    if q == [] then None
    else if q[0].bayNumber == bay then Some(0)
    else match FindByBay(q[1..], bay)
      case None => None
      case Some(k) => Some(k + 1)
  }

  function CountAlarming(q: seq<QueueItem>): nat
  {
    if q == [] then 0 else CountAlarming(q[..|q| - 1]) + (if q[|q| - 1].isAlarming then 1 else 0)
  }

  // ---------------------------------------------------------------- vitals updates

  /** The shallow spread `{ ...current, ...patch }`: a reading present in the patch wins. */
  function MergeVitals(current: Vitals, patch: Vitals): (r: Vitals)
    ensures patch.heartRate.Some? ==> r.heartRate == patch.heartRate
    ensures patch.heartRate.None? ==> r.heartRate == current.heartRate
    ensures patch.bloodPressure.Some? ==> r.bloodPressure == patch.bloodPressure
    ensures patch.bloodPressure.None? ==> r.bloodPressure == current.bloodPressure
    ensures patch.temperature.Some? ==> r.temperature == patch.temperature
    ensures patch.temperature.None? ==> r.temperature == current.temperature
    ensures patch.oxygenSaturation.Some? ==> r.oxygenSaturation == patch.oxygenSaturation
    ensures patch.oxygenSaturation.None? ==> r.oxygenSaturation == current.oxygenSaturation
    ensures patch.respiratoryRate.Some? ==> r.respiratoryRate == patch.respiratoryRate
    ensures patch.respiratoryRate.None? ==> r.respiratoryRate == current.respiratoryRate
  {
    Vitals(
      if patch.heartRate.Some? then patch.heartRate else current.heartRate,
      if patch.bloodPressure.Some? then patch.bloodPressure else current.bloodPressure,
      if patch.temperature.Some? then patch.temperature else current.temperature,
      if patch.oxygenSaturation.Some? then patch.oxygenSaturation else current.oxygenSaturation,
      if patch.respiratoryRate.Some? then patch.respiratoryRate else current.respiratoryRate)
  }

  /** Two successive merges equal one merge with the combined patch (last writer wins). */
  lemma MergeVitalsCompose(v: Vitals, a: Vitals, b: Vitals)
    ensures MergeVitals(MergeVitals(v, a), b) == MergeVitals(v, MergeVitals(a, b))
  {
  }

  /** `handleUpdateQueueVitals`: merge `patch` into the vitals of every item with that id. */
  function UpdateQueueVitals(q: seq<QueueItem>, id: int, patch: Vitals): (r: seq<QueueItem>)
    ensures |r| == |q|
    ensures forall i :: 0 <= i < |q| && q[i].id != id ==> r[i] == q[i]
    ensures forall i :: 0 <= i < |q| && q[i].id == id ==>
              r[i].vitals == MergeVitals(q[i].vitals, patch)
              && r[i] == q[i].(vitals := r[i].vitals)
  {
    seq(|q|, i requires 0 <= i < |q| =>
      if q[i].id == id then q[i].(vitals := MergeVitals(q[i].vitals, patch)) else q[i])
  }

  /** An update of an id that is not queued changes nothing. */
  lemma UpdateUnknownIdIsNoOp(q: seq<QueueItem>, id: int, patch: Vitals)
    requires forall i :: 0 <= i < |q| ==> q[i].id != id
    ensures UpdateQueueVitals(q, id, patch) == q
  {
  }

  /** Two updates of one item amount to a single update with the merged patch. */
  lemma UpdateQueueVitalsCompose(q: seq<QueueItem>, id: int, a: Vitals, b: Vitals)
    ensures UpdateQueueVitals(UpdateQueueVitals(q, id, a), id, b)
            == UpdateQueueVitals(q, id, MergeVitals(a, b))
  {
    var lhs, rhs := UpdateQueueVitals(UpdateQueueVitals(q, id, a), id, b), UpdateQueueVitals(q, id, MergeVitals(a, b));
    forall i | 0 <= i < |q| ensures lhs[i] == rhs[i] {
      MergeVitalsCompose(q[i].vitals, a, b);
    }
  }

  // ---------------------------------------------------------------- silencing

  /**
   * The vitals an item returns to when its alarm is silenced: those of the first entry
   * of the seeded queue `baseline` that sat in the same bay, if any.
   */
  function BaselineVitals(baseline: seq<QueueItem>, x: QueueItem): (r: Vitals)
    ensures forall k :: 0 <= k < |baseline| && baseline[k].bayNumber == x.bayNumber
                        && (forall j :: 0 <= j < k ==> baseline[j].bayNumber != x.bayNumber)
                        ==> r == baseline[k].vitals
    ensures (forall j :: 0 <= j < |baseline| ==> baseline[j].bayNumber != x.bayNumber) ==> r == x.vitals
  {
    match FindByBay(baseline, x.bayNumber)
    case Some(k) => baseline[k].vitals
    case None => x.vitals
  }

  /** The queue part of `handleSilenceAlarm`. */
  function SilenceAlarm(q: seq<QueueItem>, id: int, baseline: seq<QueueItem>): (r: seq<QueueItem>)
    ensures |r| == |q|
    ensures forall i :: 0 <= i < |q| && q[i].id != id ==> r[i] == q[i]
    ensures forall i :: 0 <= i < |q| && q[i].id == id ==>
              !r[i].isAlarming
              && (FindByBay(baseline, q[i].bayNumber).Some? ==>
                    r[i].vitals == baseline[FindByBay(baseline, q[i].bayNumber).value].vitals)
              && (FindByBay(baseline, q[i].bayNumber).None? ==> r[i].vitals == q[i].vitals)
              && r[i] == q[i].(vitals := r[i].vitals, isAlarming := false)
  {
    seq(|q|, i requires 0 <= i < |q| =>
      if q[i].id == id then q[i].(isAlarming := false, vitals := BaselineVitals(baseline, q[i])) else q[i])
  }

  // ---------------------------------------------------------------- deterioration tick

  /** The chance a tick fires: `Math.random() > 0.1` skips it. */
  const AlarmChance: real := 0.1

  /** `Math.floor(roll * n)` for a `roll` drawn from [0, 1). */
  function PickIndex(n: nat, roll: real): (k: nat)
    requires n > 0 && 0.0 <= roll < 1.0
    ensures k < n
  {
    var x := roll * n as real;
    assert x < n as real;
    x.Floor
  }

  /** The fabricated readings of a deteriorating patient: SpO2 88 and heart rate 135. */
  function Deteriorate(x: QueueItem): (r: QueueItem)
    ensures r.isAlarming && r.vitals.oxygenSaturation == Some(88) && r.vitals.heartRate == Some(135)
    ensures r.vitals.bloodPressure == x.vitals.bloodPressure && r.vitals.temperature == x.vitals.temperature
            && r.vitals.respiratoryRate == x.vitals.respiratoryRate
    ensures r == x.(vitals := r.vitals, isAlarming := true)
  {
    x.(vitals := x.vitals.(oxygenSaturation := Some(88), heartRate := Some(135)), isAlarming := true)
  }

  /**
   * One firing of the 15-second simulation interval. `coin` and `roll` are the two
   * `Math.random()` draws: the first decides whether anything happens, the second picks
   * the item.
   */
  function DeteriorationTick(q: seq<QueueItem>, coin: real, roll: real): (r: seq<QueueItem>)
    requires 0.0 <= coin < 1.0 && 0.0 <= roll < 1.0
    ensures |r| == |q|
    ensures forall i :: 0 <= i < |q| ==> r[i].id == q[i].id && r[i].bayNumber == q[i].bayNumber
                                         && r[i].result == q[i].result
  {
    if |q| == 0 || coin > AlarmChance then q
    else
      var k := PickIndex(|q|, roll);
      if q[k].isAlarming then q else q[k := Deteriorate(q[k])]
  }

  lemma {:induction false} CountAlarmingUpdate(q: seq<QueueItem>, k: nat, y: QueueItem)
    requires k < |q|
    ensures CountAlarming(q[k := y]) + (if q[k].isAlarming then 1 else 0)
            == CountAlarming(q) + (if y.isAlarming then 1 else 0)
  {
    var n := |q| - 1;
    if k < n {
      CountAlarmingUpdate(q[..n], k, y);
      assert q[k := y][..n] == q[..n][k := y];
    } else {
      assert q[k := y][..n] == q[..n];
    }
  }

  /**
   * The tick leaves the queue alone when it is empty, the coin says skip, or the picked item
   * already alarms; otherwise it changes exactly the picked item, which becomes alarming
   * with SpO2 88 and heart rate 135 and every other reading kept. Either way the length and
   * order are kept and at most one new alarm appears.
   */
  lemma DeteriorationTickSpec(q: seq<QueueItem>, coin: real, roll: real)
    requires 0.0 <= coin < 1.0 && 0.0 <= roll < 1.0
    ensures var r := DeteriorationTick(q, coin, roll);
      && |r| == |q|
      && (|q| == 0 || coin > AlarmChance ==> r == q)
      && (|q| > 0 && q[PickIndex(|q|, roll)].isAlarming ==> r == q)
      && (|q| > 0 && coin <= AlarmChance && !q[PickIndex(|q|, roll)].isAlarming ==>
            var k := PickIndex(|q|, roll);
            && r != q && r[k].isAlarming
            && r[k].vitals.oxygenSaturation == Some(88) && r[k].vitals.heartRate == Some(135)
            && r[k].vitals.bloodPressure == q[k].vitals.bloodPressure
            && r[k].vitals.temperature == q[k].vitals.temperature
            && r[k].vitals.respiratoryRate == q[k].vitals.respiratoryRate
            && r[k] == q[k].(vitals := r[k].vitals, isAlarming := true)
            && (forall i :: 0 <= i < |q| && i != k ==> r[i] == q[i])
            && CountAlarming(r) == CountAlarming(q) + 1)
      && CountAlarming(r) <= CountAlarming(q) + 1
  {
    if |q| > 0 && coin <= AlarmChance && !q[PickIndex(|q|, roll)].isAlarming {
      var k := PickIndex(|q|, roll);
      CountAlarmingUpdate(q, k, Deteriorate(q[k]));
      assert DeteriorationTick(q, coin, roll)[k] != q[k];
    }
  }

  // ---------------------------------------------------------------- order is kept

  ghost predicate SamePriorities(q: seq<QueueItem>, r: seq<QueueItem>)
  {
    |r| == |q| && forall i :: 0 <= i < |q| ==> r[i].result.priority == q[i].result.priority
  }

  /** Updating, silencing and the tick rewrite items in place and never touch a priority. */
  lemma InPlaceHandlersKeepPriorities(q: seq<QueueItem>, id: int, patch: Vitals, baseline: seq<QueueItem>, coin: real, roll: real)
    requires 0.0 <= coin < 1.0 && 0.0 <= roll < 1.0
    ensures SamePriorities(q, UpdateQueueVitals(q, id, patch))
    ensures SamePriorities(q, SilenceAlarm(q, id, baseline))
    ensures SamePriorities(q, DeteriorationTick(q, coin, roll))
  {
    DeteriorationTickSpec(q, coin, roll);
  }

  lemma SamePrioritiesKeepOrder(q: seq<QueueItem>, r: seq<QueueItem>)
    requires SortedByPriority(q) && SamePriorities(q, r)
    ensures SortedByPriority(r)
  {
    assert forall i :: 0 <= i < |q| ==> Key(r[i]) == Key(q[i]);
  }

  /** `prev.filter(p => p.id !== id)`, the queue removal done on admission. */
  function RemoveFromQueue(q: seq<QueueItem>, id: int): (r: seq<QueueItem>)
    ensures |r| <= |q|
    ensures forall x :: x in r <==> x in q && x.id != id
    ensures |q| == 1 ==> r == if q[0].id != id then q else []
  {
    if q == [] then []
    else
      var s := q[..|q| - 1];
      assert q == s + [q[|q| - 1]];
      RemoveFromQueue(s, id) + (if q[|q| - 1].id != id then [q[|q| - 1]] else [])
  }

  /**
   * Removal works piece by piece: filtering a concatenation filters each part in place, so
   * the kept items stay in their order and keep their number of copies.
   */
  lemma {:induction false} RemoveFromQueueAppend(a: seq<QueueItem>, b: seq<QueueItem>, id: int)
    ensures RemoveFromQueue(a + b, id) == RemoveFromQueue(a, id) + RemoveFromQueue(b, id)
    decreases |b|
  {
    if b == [] {
      assert a + b == a;
    } else {
      var b' := b[..|b| - 1];
      assert (a + b)[..|a + b| - 1] == a + b';
      RemoveFromQueueAppend(a, b', id);
    }
  }

  /** Removing items by id keeps the others in their order, so an ordered queue stays ordered. */
  lemma {:induction false} RemoveFromQueueKeepsOrder(q: seq<QueueItem>, id: int)
    requires SortedByPriority(q)
    ensures SortedByPriority(RemoveFromQueue(q, id))
  {
    if q != [] {
      var s, x := q[..|q| - 1], q[|q| - 1];
      RemoveFromQueueKeepsOrder(s, id);
      var r := RemoveFromQueue(s, id);
      forall y | y in r ensures Key(y) <= Key(x) {
        var i :| 0 <= i < |s| && s[i] == y;
      }
    }
  }

  /** A removal of an id that is not queued changes nothing. */
  lemma {:induction false} RemoveUnknownIdIsNoOp(q: seq<QueueItem>, id: int)
    requires forall i :: 0 <= i < |q| ==> q[i].id != id
    ensures RemoveFromQueue(q, id) == q
  {
    if q != [] {
      RemoveUnknownIdIsNoOp(q[..|q| - 1], id);
      assert q == q[..|q| - 1] + [q[|q| - 1]];
    }
  }

  /** The seeded cases are already in priority order, so the initial sort keeps them as listed. */
  lemma InitialQueueInSeedOrder(now: int)
    ensures InitialQueue(now) == Fixtures.MockErQueue(now)
    ensures SortedByPriority(InitialQueue(now))
  {
    var q := Fixtures.MockErQueue(now);
    assert Key(q[0]) == 0 && Key(q[1]) == 1 && Key(q[2]) == 2;
    SortedIsFixed(q);
  }
}
