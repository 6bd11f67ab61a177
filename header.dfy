/** The header's session clock: the whole seconds since the session started,
    shown as `h:mm:ss` from the first hour on and as `m:ss` before. */
module Header {
  import opened Util
  import opened Text
  import EmotionStats

  /** The fields of the clock: `Math.floor(seconds / 3600)`,
      `Math.floor((seconds % 3600) / 60)` and `seconds % 60`, with
      JavaScript's truncating remainder. */
  datatype ClockFields = ClockFields(hours: int, minutes: int, secs: int)

  function Decompose(seconds: int): (f: ClockFields)
    ensures seconds >= 0 ==>
              f.hours >= 0 && 0 <= f.minutes < 60 && 0 <= f.secs < 60 &&
              f.hours * 3600 + f.minutes * 60 + f.secs == seconds
    ensures f.hours > 0 <==> seconds >= 3600
  {
    ClockFields(seconds / 3600, JsRem(seconds, 3600) / 60, JsRem(seconds, 60))
  }

  /** The text `updateDuration` writes: "0:00" without a (truthy) start
      time or while not monitoring. */
  function HeaderClock(sessionStartTime: Option<int>, isMonitoring: bool, now: int): string {
    if sessionStartTime.None? || sessionStartTime.value == 0 || !isMonitoring then IdleClock
    else ClockText(Decompose((now - sessionStartTime.value) / 1000))
  }

  /** `h:mm:ss` when there are hours, `m:ss` otherwise. */
  function ClockText(f: ClockFields): string {
    if f.hours > 0 then
      IntToString(f.hours) + ":" + Pad2(IntToString(f.minutes)) + ":" + Pad2(IntToString(f.secs))
    else
      IntToString(f.minutes) + ":" + Pad2(IntToString(f.secs))
  }

  /** From a start in the past the clock reads back as the elapsed whole
      seconds; every padded field is two digits. */
  lemma HeaderClockRoundTrip(sessionStartTime: Option<int>, now: int)
    requires sessionStartTime.Some? && sessionStartTime.value != 0 && sessionStartTime.value <= now
    ensures ClockSeconds(HeaderClock(sessionStartTime, true, now)) ==
            Some((now - sessionStartTime.value) / 1000)
  {
    ActiveClock(sessionStartTime, now);
    ClockTextRoundTrip((now - sessionStartTime.value) / 1000);
  }

  /** While monitoring from a truthy start, the header shows the clock text
      of the elapsed whole seconds. */
  lemma ActiveClock(sessionStartTime: Option<int>, now: int)
    requires sessionStartTime.Some? && sessionStartTime.value != 0
    ensures HeaderClock(sessionStartTime, true, now) ==
            ClockText(Decompose((now - sessionStartTime.value) / 1000))
  {
  }

  /** The clock text of a non-negative duration reads back as it. */
  lemma ClockTextRoundTrip(seconds: nat)
    ensures ClockSeconds(ClockText(Decompose(seconds))) == Some(seconds)
  {
    if seconds >= 3600 {
      LongClock(seconds);
    } else {
      ShortClock(seconds);
    }
  }

  lemma LongClock(seconds: nat)
    requires seconds >= 3600
    ensures ClockSeconds(ClockText(Decompose(seconds))) == Some(seconds)
  {
    var f := Decompose(seconds);
    var h, m, sec: nat := f.hours, f.minutes, f.secs;
    assert h * 3600 + m * 60 + sec == seconds;
    assert ClockText(f) == NatToString(h) + ":" + Pad2(NatToString(m)) + ":" + Pad2(NatToString(sec));
    ClockSecondsHours(h, m, sec);
  }

  lemma ShortClock(seconds: nat)
    requires seconds < 3600
    ensures ClockSeconds(ClockText(Decompose(seconds))) == Some(seconds)
  {
    var f := Decompose(seconds);
    var m, sec: nat := f.minutes, f.secs;
    assert f.hours == 0;
    assert m * 60 + sec == seconds;
    assert ClockText(f) == NatToString(m) + ":" + Pad2(NatToString(sec));
    ClockSecondsMinutes(m, sec);
  }

  /** The padded minutes and seconds fields are exactly two characters. */
  lemma PaddedFieldsTwoDigits(start: int, now: int)
    requires start <= now
    ensures var f := Decompose((now - start) / 1000);
      |Pad2(IntToString(f.minutes))| == 2 && |Pad2(IntToString(f.secs))| == 2
  {
    var f := Decompose((now - start) / 1000);
    Pad2Digits(f.minutes);
    Pad2Digits(f.secs);
  }

  /** Within the first hour the header shows the same text as the
      dashboard's session clock. */
  lemma HeaderAgreesWithDashboard(sessionStartTime: Option<int>, now: int)
    requires sessionStartTime.Some? && sessionStartTime.value != 0
    requires sessionStartTime.value <= now < sessionStartTime.value + 3600000
    ensures HeaderClock(sessionStartTime, true, now) == EmotionStats.SessionDuration(sessionStartTime, now)
  {
    ActiveClock(sessionStartTime, now);
    EmotionStats.SessionDurationText(sessionStartTime, now);
    FirstHourText((now - sessionStartTime.value) / 1000);
  }

  /** The dashboard's clock is computed in the render after the start time
      changes and not again until it changes, so it keeps showing "0:00";
      from one second into a session on, the header's ticking clock shows
      a different text. */
  lemma HeaderLeavesDashboardBehind(start: int, renderNow: int, now: int)
    requires start != 0 && start <= renderNow < start + 1000 && start + 1000 <= now
    ensures HeaderClock(Some(start), true, now) != EmotionStats.SessionDuration(Some(start), renderNow)
  {
    EmotionStats.DashboardClockAtStart(start, renderNow);
    HeaderClockRoundTrip(Some(start), now);
    EmotionStats.MinutesTextRoundTrip(0);
    assert EmotionStats.MinutesText(0) == IdleClock;
  }

  lemma FirstHourText(seconds: nat)
    requires seconds < 3600
    ensures ClockText(Decompose(seconds)) == EmotionStats.MinutesText(seconds)
  {
    var f := Decompose(seconds);
    assert f.hours == 0;
    assert JsRem(seconds, 3600) == seconds;
    assert f.minutes == seconds / 60 && f.secs == JsRem(seconds, 60);
  }

  /** Stopping monitoring, or a missing start, shows "0:00". */
  lemma HeaderClockIdle(sessionStartTime: Option<int>, now: int)
    ensures HeaderClock(sessionStartTime, false, now) == IdleClock
    ensures HeaderClock(None, true, now) == IdleClock
  {
  }

  /** The component: its props and the text in its state. */
  class HeaderClockState {
    var isMonitoring: bool
    var sessionStartTime: Option<int>
    var sessionDuration: string

    constructor(isMonitoring: bool, sessionStartTime: Option<int>)
      ensures this.isMonitoring == isMonitoring && this.sessionStartTime == sessionStartTime
      ensures sessionDuration == IdleClock
    {
      this.isMonitoring := isMonitoring;
      this.sessionStartTime := sessionStartTime;
      sessionDuration := IdleClock;
    }

    /** One run of the effect (or of its one-second interval) at `now`. */
    method Refresh(now: int)
      modifies this
      ensures sessionDuration == HeaderClock(sessionStartTime, isMonitoring, now)
      ensures isMonitoring == old(isMonitoring) && sessionStartTime == old(sessionStartTime)
    {
      if sessionStartTime.None? || sessionStartTime.value == 0 || !isMonitoring {
        sessionDuration := IdleClock;
        return;
      }
      var seconds := (now - sessionStartTime.value) / 1000;
      var hours := seconds / 3600;
      var minutes := JsRem(seconds, 3600) / 60;
      var secs := JsRem(seconds, 60);
      if hours > 0 {
        sessionDuration := IntToString(hours) + ":" + Pad2(IntToString(minutes)) + ":" + Pad2(IntToString(secs));
      } else {
        sessionDuration := IntToString(minutes) + ":" + Pad2(IntToString(secs));
      }
    }
  }
}
