/**
 * `areVitalsAbnormal`: the dashboard's threshold test on a set of vitals. A reading counts
 * only when it is present and non-zero (JavaScript truthiness); the systolic pressure is the
 * text before the first `/` read with `parseInt`, and an unreadable one (NaN) never alarms.
 */
module VitalsCheck {
  import opened Wrappers
  import opened HospitalTypes
  import opened Decimal
  import opened TriageQueue
  import opened Fixtures

  /** `s.split("/")[0]`: the text before the first `/`, or all of `s` when there is none. */
  function BeforeSlash(s: string): (r: string)
    ensures r <= s && '/' !in r
    ensures |r| < |s| ==> s[|r|] == '/'
  {
    if s == [] || s[0] == '/' then [] else [s[0]] + BeforeSlash(s[1..])
  }

  /** A numeric reading that JavaScript treats as true: present and not zero. */
  predicate Truthy(x: Option<int>)
  {
    x.Some? && x.value != 0
  }

  predicate SystolicOutOfRange(systolic: Option<int>)
  {
    systolic.Some? && (systolic.value > 180 || systolic.value < 90)
  }

  /** Only a present reading can raise the test: a missing or zero SpO2 or heart rate never does. */
  function AreVitalsAbnormal(v: Vitals): (abnormal: bool)
    ensures abnormal ==> Truthy(v.oxygenSaturation) || Truthy(v.heartRate) || v.bloodPressure.Some?
    ensures Truthy(v.oxygenSaturation) && v.oxygenSaturation.value < 90 ==> abnormal
    ensures Truthy(v.heartRate) && (v.heartRate.value < 50 || v.heartRate.value > 130) ==> abnormal
  {
    (Truthy(v.oxygenSaturation) && v.oxygenSaturation.value < 90)
    || (Truthy(v.heartRate) && (v.heartRate.value < 50 || v.heartRate.value > 130))
    || (v.bloodPressure.Some? && SystolicOutOfRange(ParseInt(BeforeSlash(v.bloodPressure.value))))
  }

  lemma {:induction false} BeforeSlashOfJoin(a: string, b: string)
    requires '/' !in a
    ensures BeforeSlash(a + "/" + b) == a
  {
    if a != [] {
      assert (a + "/" + b)[1..] == a[1..] + "/" + b;
      BeforeSlashOfJoin(a[1..], b);
    }
  }

  lemma NoSlashInNumeral(n: int)
    ensures '/' !in IntToDecimal(n)
  {
    var s := IntToDecimal(n);
    if n < 0 {
      assert forall i :: 1 <= i < |s| ==> s[i] == NatToDecimal(-n)[i - 1];
    }
  }

  /**
   * For a reading written the usual way — heart rate, SpO2 and a "systolic/diastolic"
   * pressure — the vitals are abnormal exactly when a present non-zero SpO2 is below 90,
   * a present non-zero heart rate is outside [50, 130], or the systolic pressure is outside
   * [90, 180].
   */
  lemma AbnormalReading(heartRate: int, systolic: int, diastolic: int, spo2: int,
                        temperature: Option<real>, respiratoryRate: Option<int>)
    ensures var v := Vitals(Some(heartRate), Some(IntToDecimal(systolic) + "/" + IntToDecimal(diastolic)),
                            temperature, Some(spo2), respiratoryRate);
      AreVitalsAbnormal(v) <==>
        (spo2 != 0 && spo2 < 90) || (heartRate != 0 && (heartRate < 50 || heartRate > 130))
        || systolic > 180 || systolic < 90
  {
    NoSlashInNumeral(systolic);
    BeforeSlashOfJoin(IntToDecimal(systolic), IntToDecimal(diastolic));
    ParseIntOfIntToDecimal(systolic, []);
    assert IntToDecimal(systolic) + [] == IntToDecimal(systolic);
  }

  /** Missing readings, and readings of zero, never raise the test. */
  lemma {:induction false} AbsentReadingsAreNormal(v: Vitals)
    requires !Truthy(v.oxygenSaturation) && !Truthy(v.heartRate) && v.bloodPressure.None?
    ensures !AreVitalsAbnormal(v)
  {
  }

  /** The readings of the three seeded triage cases are all within range. */
  lemma SeededVitalsNormal(now: int, k: nat)
    requires k < 3
    ensures !AreVitalsAbnormal(MockErQueue(now)[k].vitals)
  {
    if k == 0 {
      Bay1VitalsNormal(now);
    } else if k == 1 {
      Bay2VitalsNormal(now);
    } else {
      Bay3VitalsNormal(now);
    }
  }

  lemma Bay1VitalsNormal(now: int)
    ensures !AreVitalsAbnormal(MockErQueue(now)[0].vitals)
  {
    assert NatToDecimal(1) == "1" && NatToDecimal(15) == "15" && NatToDecimal(150) == "150";
    assert NatToDecimal(9) == "9" && NatToDecimal(90) == "90";
    assert "150" + "/" + "90" == "150/90";
    AbnormalReading(115, 150, 90, 91, Some(37.1), None);
  }

  lemma Bay2VitalsNormal(now: int)
    ensures !AreVitalsAbnormal(MockErQueue(now)[1].vitals)
  {
    assert NatToDecimal(1) == "1" && NatToDecimal(13) == "13" && NatToDecimal(130) == "130";
    assert NatToDecimal(8) == "8" && NatToDecimal(85) == "85";
    assert "130" + "/" + "85" == "130/85";
    AbnormalReading(105, 130, 85, 96, Some(39.4), Some(22));
  }

  lemma Bay3VitalsNormal(now: int)
    ensures !AreVitalsAbnormal(MockErQueue(now)[2].vitals)
  {
    assert NatToDecimal(1) == "1" && NatToDecimal(12) == "12" && NatToDecimal(120) == "120";
    assert NatToDecimal(8) == "8" && NatToDecimal(80) == "80";
    assert "120" + "/" + "80" == "120/80";
    AbnormalReading(80, 120, 80, 99, Some(37.0), None);
  }

  /** Every alarming item's vitals fail the threshold test. */
  ghost predicate AlarmsJustified(q: seq<QueueItem>)
  {
    forall i :: 0 <= i < |q| && q[i].isAlarming ==> AreVitalsAbnormal(q[i].vitals)
  }

  /** The fabricated deterioration readings (SpO2 88, heart rate 135) fail the test, so a
      tick never raises an alarm the threshold test would not. */
  lemma TickKeepsAlarmsJustified(q: seq<QueueItem>, coin: real, roll: real)
    requires 0.0 <= coin < 1.0 && 0.0 <= roll < 1.0
    requires AlarmsJustified(q)
    ensures AlarmsJustified(DeteriorationTick(q, coin, roll))
  {
    DeteriorationTickSpec(q, coin, roll);
  }

  /** Silencing an item that sits in a seeded bay (1 to 3) brings its vitals back within range. */
  lemma SilenceInSeededBayIsNormal(q: seq<QueueItem>, id: int, now: int, i: nat)
    requires i < |q| && q[i].id == id && 1 <= q[i].bayNumber <= 3
    ensures !AreVitalsAbnormal(SilenceAlarm(q, id, MockErQueue(now))[i].vitals)
    ensures !SilenceAlarm(q, id, MockErQueue(now))[i].isAlarming
  {
    var baseline := MockErQueue(now);
    var k := q[i].bayNumber - 1;
    assert baseline[k].bayNumber == q[i].bayNumber;
    var found := FindByBay(baseline, q[i].bayNumber);
    assert found.Some?;
    assert found.value < 3;
    SeededVitalsNormal(now, found.value);
  }
}
