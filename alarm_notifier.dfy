/**
 * The spoken ER alarm: the effect that runs after every change of the queue, its cleanup,
 * and the silencing handler's part on the siren. The state keeps apart what
 * `speechIntervalRef.current` records and which browser intervals really run; speech output
 * is the sequence of commands given to the speech engine.
 */
module AlarmNotifier {
  import opened Wrappers
  import opened HospitalTypes
  import TriageQueue

  datatype SpeechEvent = Speak(bay: int) | CancelSpeech

  /**
   * `recorded`: the interval id held in `speechIntervalRef.current`. `running`: the repeat
   * intervals the browser still fires, each with the bay its utterance announces.
   * `nextTimerId`: the id the browser hands out next (ids start at 1).
   */
  datatype Siren = Siren(recorded: Option<nat>, running: map<nat, int>, nextTimerId: nat, speech: seq<SpeechEvent>)

  /** The repeat period of the spoken alert, in milliseconds. */
  const RepeatMillis: nat := 6000

  const Silent: Siren := Siren(None, map[], 1, [])

  /** Ids are positive and already handed out; a running repeat is always the recorded one. */
  ghost predicate Valid(s: Siren)
  {
    && s.nextTimerId >= 1
    && (s.recorded.Some? ==> 1 <= s.recorded.value < s.nextTimerId)
    && (forall t :: t in s.running ==> s.recorded == Some(t))
  }

  /** `speak()`: stop any utterance in progress, then announce the bay. */
  function SpeakAlert(bay: int, speaking: bool): seq<SpeechEvent>
  {
    (if speaking then [CancelSpeech] else []) + [Speak(bay)]
  }

  /**
   * The alarm effect body. With an alarming item and no recorded interval it announces the
   * first alarming item's bay and starts the 6-second repeat; with no alarming item and a
   * recorded interval it clears it, forgets it and stops speech; otherwise it does nothing.
   * `speaking` is the browser's `speechSynthesis.speaking`.
   */
  function RunEffect(s: Siren, queue: seq<QueueItem>, speaking: bool): (r: Siren)
    ensures Valid(s) ==> Valid(r)
    ensures |s.speech| <= |r.speech| && r.speech[..|s.speech|] == s.speech
    ensures r.nextTimerId >= s.nextTimerId
  {
    match TriageQueue.FirstAlarming(queue)
    case Some(k) =>
      if s.recorded.None? then
        var t := s.nextTimerId;
        var bay := queue[k].bayNumber;
        Siren(Some(t), s.running[t := bay], t + 1, s.speech + SpeakAlert(bay, speaking))
      else s
    case None =>
      if s.recorded.Some? then
        Siren(None, s.running - {s.recorded.value}, s.nextTimerId, s.speech + [CancelSpeech])
      else s
  }

  /** The effect's cleanup: clear the recorded interval (the ref keeps its value) and stop speech. */
  function Cleanup(s: Siren): (r: Siren)
    ensures r.recorded == s.recorded && r.nextTimerId == s.nextTimerId
    ensures r.speech == s.speech + [CancelSpeech]
    ensures Valid(s) ==> Valid(r) && r.running == map[]
  {
    var running := if s.recorded.Some? && s.recorded.value != 0 then s.running - {s.recorded.value} else s.running;
    s.(running := running, speech := s.speech + [CancelSpeech])
  }

  /** `handleSilenceAlarm`'s part: clear and forget the recorded interval, stop speech. */
  function Silence(s: Siren): (r: Siren)
    ensures r.nextTimerId == s.nextTimerId
    ensures r.speech == s.speech + [CancelSpeech]
    ensures Valid(s) ==> Valid(r) && r.recorded.None? && r.running == map[]
  {
    if s.recorded.Some? && s.recorded.value != 0 then
      Siren(None, s.running - {s.recorded.value}, s.nextTimerId, s.speech + [CancelSpeech])
    else
      s.(speech := s.speech + [CancelSpeech])
  }

  /** The browser firing interval `t`: only a running interval speaks. */
  function Fire(s: Siren, t: nat, speaking: bool): (r: Siren)
    ensures r.recorded == s.recorded && r.running == s.running && r.nextTimerId == s.nextTimerId
    ensures t !in s.running ==> r.speech == s.speech
    ensures t in s.running ==> |r.speech| > |s.speech| && r.speech[..|s.speech|] == s.speech
                                 && r.speech[|r.speech| - 1] == Speak(s.running[t])
  {
    if t in s.running then s.(speech := s.speech + SpeakAlert(s.running[t], speaking)) else s
  }

  /** A change of the queue: React runs the previous cleanup, then the effect again. */
  function Rerender(s: Siren, queue: seq<QueueItem>, speaking: bool): (r: Siren)
    ensures Valid(s) ==> Valid(r)
    ensures |s.speech| < |r.speech| && r.speech[..|s.speech| + 1] == s.speech + [CancelSpeech]
  {
    RunEffect(Cleanup(s), queue, speaking)
  }

  // ---------------------------------------------------------------- what one run does

  /**
   * One run starts a repeat exactly when an item alarms and no interval is recorded, and
   * then announces the first alarming item's bay; it stops the siren exactly when nothing
   * alarms and an interval is recorded; otherwise it changes nothing.
   */
  lemma RunEffectSpec(s: Siren, queue: seq<QueueItem>, speaking: bool)
    requires Valid(s)
    ensures var r := RunEffect(s, queue, speaking);
      var alarm := TriageQueue.FirstAlarming(queue);
      && (r.recorded.Some? && s.recorded.None? <==> alarm.Some? && s.recorded.None?)
      && (alarm.Some? && s.recorded.None? ==>
            && r.recorded == Some(s.nextTimerId)
            && r.running == map[s.nextTimerId := queue[alarm.value].bayNumber]
            && r.speech == s.speech + SpeakAlert(queue[alarm.value].bayNumber, speaking))
      && (alarm.None? && s.recorded.Some? ==>
            r.recorded.None? && r.running == map[] && r.speech == s.speech + [CancelSpeech])
      && (alarm.Some? == s.recorded.Some? ==> r == s)
      && |r.running| <= 1
  {
    var r := RunEffect(s, queue, speaking);
    if s.recorded.None? {
      assert s.running == map[];
    } else {
      assert s.running.Keys <= {s.recorded.value};
    }
    if r.running != map[] {
      var t :| t in r.running;
      assert r.running.Keys <= {t};
      assert r.running.Keys == {t};
    }
  }

  /** Every step keeps the siren state valid. */
  lemma StepsKeepValid(s: Siren, queue: seq<QueueItem>, speaking: bool, t: nat)
    requires Valid(s)
    ensures Valid(RunEffect(s, queue, speaking))
    ensures Valid(Cleanup(s))
    ensures Valid(Silence(s))
    ensures Valid(Fire(s, t, speaking))
    ensures Valid(Rerender(s, queue, speaking))
  {
  }

  /** However the steps interleave, at most one repeat interval runs. */
  lemma {:induction false} AtMostOneRepeat(s: Siren)
    requires Valid(s)
    ensures |s.running| <= 1
    ensures s.recorded.None? ==> s.running == map[]
  {
    if s.running != map[] {
      var t :| t in s.running;
      assert s.running.Keys == {t};
    }
  }

  /** After silencing nothing is recorded, nothing repeats and speech is stopped. */
  lemma SilenceStopsSiren(s: Siren, t: nat, speaking: bool)
    requires Valid(s)
    ensures Silence(s).recorded.None? && Silence(s).running == map[]
    ensures Silence(s).speech == s.speech + [CancelSpeech]
    ensures Fire(Silence(s), t, speaking) == Silence(s)
  {
    AtMostOneRepeat(s);
  }

  /** The cleanup clears the repeat but leaves the ref recorded. */
  lemma CleanupKeepsRef(s: Siren, t: nat, speaking: bool)
    requires Valid(s)
    ensures Cleanup(s).recorded == s.recorded
    ensures Cleanup(s).running == map[]
    ensures Fire(Cleanup(s), t, speaking) == Cleanup(s)
  {
    AtMostOneRepeat(s);
  }

  // ---------------------------------------------------------------- the stale ref

  /**
   * As written: once a repeat has been recorded, any later change of the queue that leaves
   * an item alarming ends with no interval running while the ref still claims one, so the
   * alarm is never announced again until it is silenced or stops on its own.
   */
  lemma StaleRefMutesSiren(s: Siren, queue: seq<QueueItem>, speaking: bool, t: nat)
    requires Valid(s) && s.recorded.Some?
    requires TriageQueue.FirstAlarming(queue).Some?
    ensures Rerender(s, queue, speaking).recorded.Some?
    ensures Rerender(s, queue, speaking).running == map[]
    ensures Fire(Rerender(s, queue, speaking), t, speaking).speech == Rerender(s, queue, speaking).speech
  {
    CleanupKeepsRef(s, t, speaking);
  }

  /** The corrected cleanup: clear the interval and forget it, as the silencing handler does. */
  function CleanupClearingRef(s: Siren): (r: Siren)
    ensures Valid(s) ==> Valid(r) && r.recorded.None? && r.running == map[]
    ensures r.speech == s.speech + [CancelSpeech]
  {
    Silence(s)
  }

  function RerenderClearingRef(s: Siren, queue: seq<QueueItem>, speaking: bool): (r: Siren)
    ensures Valid(s) ==> Valid(r)
  {
    RunEffect(CleanupClearingRef(s), queue, speaking)
  }

  /**
   * With the corrected cleanup the siren follows the queue after every change: exactly one
   * repeat runs while an item alarms, announcing the first alarming item's bay (so it moves
   * on to the next alarming bay without a silent gap), and none runs otherwise.
   */
  lemma SirenFollowsQueue(s: Siren, queue: seq<QueueItem>, speaking: bool)
    requires Valid(s)
    ensures var r := RerenderClearingRef(s, queue, speaking);
      && Valid(r)
      && (TriageQueue.FirstAlarming(queue).Some? <==> r.running != map[])
      && (TriageQueue.FirstAlarming(queue).Some? ==>
            r.running.Values == {queue[TriageQueue.FirstAlarming(queue).value].bayNumber}
            && r.speech[|r.speech| - 1] == Speak(queue[TriageQueue.FirstAlarming(queue).value].bayNumber))
  {
    SilenceStopsSiren(s, 0, speaking);
    var r := RerenderClearingRef(s, queue, speaking);
    if TriageQueue.FirstAlarming(queue).Some? {
      var t := Silence(s).nextTimerId;
      assert r.running == map[t := queue[TriageQueue.FirstAlarming(queue).value].bayNumber];
    }
  }
}
