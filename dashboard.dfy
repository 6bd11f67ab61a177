/** The dashboard page's session state: the monitoring switch, the sample
    log, the session start time, the current label, the window of recent
    labels and the debounced background sync of the latest samples. */
module DashboardPage {
  import opened Util
  import opened Text
  import opened Schema
  import EmotionStats

  /** The body of the POST the sync timer sends. */
  datatype SyncRequest = SyncRequest(emotions: seq<EmotionEntry>, sessionId: string)

  /** The sync the effect schedules for a state: only with a non-empty log
      and a (truthy) start time; it carries the last five samples and the
      start time's decimal string as the session id. */
  function ScheduledSync(emotions: seq<EmotionEntry>, sessionStartTime: Option<int>): Option<SyncRequest> {
    if |emotions| > 0 && sessionStartTime.Some? && sessionStartTime.value != 0 then
      Some(SyncRequest(LastN(emotions, 5), IntToString(sessionStartTime.value)))
    else None
  }

  /** A sync is scheduled exactly when there is something to send in a
      running session; it sends the last min(5, n) samples in arrival order
      under an id that parses back to the start time. */
  lemma ScheduledSyncSpec(emotions: seq<EmotionEntry>, sessionStartTime: Option<int>)
    ensures ScheduledSync(emotions, sessionStartTime).Some? <==>
              (|emotions| > 0 && sessionStartTime.Some? && sessionStartTime.value != 0)
    ensures ScheduledSync(emotions, sessionStartTime).Some? ==>
              var req := ScheduledSync(emotions, sessionStartTime).value;
              |req.emotions| == Min(5, |emotions|) &&
              (forall i :: 0 <= i < |req.emotions| ==>
                 req.emotions[i] == emotions[|emotions| - |req.emotions| + i]) &&
              ParseInt(req.sessionId) == sessionStartTime
  {
    if ScheduledSync(emotions, sessionStartTime).Some? {
      var w := LastN(emotions, 5);
      assert emotions == emotions[..|emotions| - |w|] + w;
      var start := sessionStartTime.value;
      assert ParseInt(IntToString(start)) == Some(start) by {
        ParseIntRoundTrip(start);
      }
    }
  }

  /** `emotions.slice(-20).map(e => e.emotion)`. */
  function RecentLabels(emotions: seq<EmotionEntry>): seq<Emotion> {
    LabelsOf(LastN(emotions, 20))
  }

  /** The labels of the last min(20, n) samples, in arrival order. */
  lemma RecentLabelsSpec(emotions: seq<EmotionEntry>)
    ensures var r := RecentLabels(emotions);
      |r| == Min(20, |emotions|) &&
      forall i :: 0 <= i < |r| ==> r[i] == emotions[|emotions| - |r| + i].emotion
  {
    var w := LastN(emotions, 20);
    assert emotions == emotions[..|emotions| - |w|] + w;
  }

  class Dashboard {
    var isMonitoring: bool
    var emotions: seq<EmotionEntry>
    var sessionStartTime: Option<int>
    var currentEmotion: Option<Emotion>
    /** The sync whose timer is pending, if any. Each change of the log or
        of the start time clears the old timer and schedules afresh. */
    var pendingSync: Option<SyncRequest>
    /** The session clock the statistics panel shows: its memo depends on
        the start time only, so it reads the clock in the render after the
        start time changes and keeps that text until the next change. */
    var sessionDuration: string

    /** A running session has a start time, an idle one has none, and a
        pending timer is the one the effect scheduled for this state. */
    predicate Valid()
      reads this
    {
      (isMonitoring <==> sessionStartTime.Some?) &&
      (pendingSync.Some? ==> pendingSync == ScheduledSync(emotions, sessionStartTime))
    }

    constructor()
      ensures Valid()
      ensures !isMonitoring && emotions == [] && sessionStartTime.None? && currentEmotion.None?
      ensures pendingSync.None? && sessionDuration == IdleClock
    {
      isMonitoring := false;
      emotions := [];
      sessionStartTime := None;
      currentEmotion := None;
      pendingSync := None;
      sessionDuration := EmotionStats.SessionDuration(None, 0);
    }

    /** `handleEmotionDetected`: append the sample and make its label current. */
    method OnEmotionDetected(emotion: EmotionEntry)
      requires Valid()
      modifies this
      ensures Valid()
      ensures emotions == old(emotions) + [emotion]
      ensures currentEmotion == Some(emotion.emotion)
      ensures isMonitoring == old(isMonitoring) && sessionStartTime == old(sessionStartTime)
      ensures pendingSync == ScheduledSync(emotions, sessionStartTime)
      ensures sessionDuration == old(sessionDuration)
    {
      emotions := emotions + [emotion];
      currentEmotion := Some(emotion.emotion);
      pendingSync := ScheduledSync(emotions, sessionStartTime);
    }

    /** `handleToggleMonitoring`: starting records the start time and clears
        the log and the current label; stopping only drops the start time.
        The start time changes, so the render at `renderNow` recomputes the
        statistics panel's clock; rendered within the second it reads
        "0:00", and stopping shows "0:00" too. */
    method OnToggleMonitoring(now: int, renderNow: int)
      requires Valid()
      modifies this
      ensures Valid()
      ensures isMonitoring == !old(isMonitoring)
      ensures !old(isMonitoring) ==>
                sessionStartTime == Some(now) && emotions == [] && currentEmotion.None?
      ensures old(isMonitoring) ==>
                sessionStartTime.None? && emotions == old(emotions) && currentEmotion == old(currentEmotion)
      ensures pendingSync.None?
      ensures sessionDuration == EmotionStats.SessionDuration(sessionStartTime, renderNow)
      ensures now <= renderNow < now + 1000 || old(isMonitoring) ==> sessionDuration == IdleClock
    {
      if !isMonitoring {
        sessionStartTime := Some(now);
        emotions := [];
        currentEmotion := None;
      } else {
        sessionStartTime := None;
      }
      isMonitoring := !isMonitoring;
      pendingSync := ScheduledSync(emotions, sessionStartTime);
      sessionDuration := EmotionStats.SessionDuration(sessionStartTime, renderNow);
      if !old(isMonitoring) && now <= renderNow < now + 1000 {
        EmotionStats.DashboardClockAtStart(now, renderNow);
      }
    }

    /** The pending timer fires: its request is sent and nothing is pending.
        A failed request is logged and changes no state. */
    method OnSyncTimer() returns (sent: Option<SyncRequest>)
      requires Valid()
      modifies this
      ensures Valid()
      ensures sent == old(pendingSync)
      ensures pendingSync.None?
      ensures isMonitoring == old(isMonitoring) && emotions == old(emotions)
      ensures sessionStartTime == old(sessionStartTime) && currentEmotion == old(currentEmotion)
      ensures sessionDuration == old(sessionDuration)
    {
      sent := pendingSync;
      pendingSync := None;
    }

    /** Two toggles give back the original monitoring flag; stopping a
        session just started leaves an empty log and no current label. */
    method ToggleTwice(now: int, later: int)
      requires Valid()
      modifies this
      ensures Valid()
      ensures isMonitoring == old(isMonitoring)
      ensures sessionStartTime == old(sessionStartTime) || (old(isMonitoring) && sessionStartTime == Some(later))
      ensures !old(isMonitoring) ==> emotions == [] && currentEmotion.None?
      ensures sessionDuration == IdleClock
    {
      OnToggleMonitoring(now, now);
      OnToggleMonitoring(later, later);
    }
  }
}
