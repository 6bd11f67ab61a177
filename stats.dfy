/** The emotion dashboard's aggregates over the session's sample stream:
    per-label counts, the dominant label, the mean confidence, the window of
    recent samples, the session clock and the distribution bars. */
module EmotionStats {
  import opened Util
  import opened Text
  import opened Schema

  /** Number of samples carrying label e. */
  function CountOf(s: seq<EmotionEntry>, e: Emotion): nat {
    if s == [] then 0
    else CountOf(s[..|s| - 1], e) + (if s[|s| - 1].emotion == e then 1 else 0)
  }

  /** `counts[e] || 0`: a label missing from the object reads as zero. */
  function Get(counts: map<Emotion, nat>, e: Emotion): nat {
    if e in counts then counts[e] else 0
  }

  /** The count object: every label, zero-filled, with its count. */
  function CountMap(s: seq<EmotionEntry>): (m: map<Emotion, nat>)
    ensures forall e :: e in m && m[e] == CountOf(s, e)
  {
    AllLabels();
    map e: Emotion | e in Labels :: CountOf(s, e)
  }

  lemma AllLabels()
    ensures forall e: Emotion :: e in Labels
  {
    forall e: Emotion ensures e in Labels {
      LabelsComplete(e);
    }
  }

  /** The sum of the count object's values. */
  function Total(counts: map<Emotion, nat>): nat {
    Get(counts, Happy) + Get(counts, Sad) + Get(counts, Angry) + Get(counts, Neutral) +
    Get(counts, Fearful) + Get(counts, Surprised) + Get(counts, Disgusted)
  }

  /** The counts of all labels add up to the number of samples. */
  lemma {:induction false} CountsSum(s: seq<EmotionEntry>)
    ensures Total(CountMap(s)) == |s|
  {
    if s != [] {
      CountsSum(s[..|s| - 1]);
    }
  }

  // ---------------------------------------------------------------------
  // Dominant label

  /** `Object.entries(counts).reduce(...)`: visit the labels in order and
      replace the running choice only on a strictly greater count. */
  function Dominant(counts: map<Emotion, nat>, order: seq<Emotion>, best: Emotion): Emotion {
    if order == [] then best
    else Dominant(counts, order[1..], if Get(counts, order[0]) > Get(counts, best) then order[0] else best)
  }

  /** The choice is the seed or a visited label, and no visited label and
      not the seed has a greater count. */
  lemma {:induction false} DominantMaximal(counts: map<Emotion, nat>, order: seq<Emotion>, best: Emotion)
    ensures var r := Dominant(counts, order, best);
      (r == best || r in order) &&
      Get(counts, best) <= Get(counts, r) &&
      forall i :: 0 <= i < |order| ==> Get(counts, order[i]) <= Get(counts, r)
  {
    if order != [] {
      var next := if Get(counts, order[0]) > Get(counts, best) then order[0] else best;
      DominantMaximal(counts, order[1..], next);
      forall i | 0 < i < |order| ensures order[i] == order[1..][i - 1] { }
    }
  }

  /** Tie-break: the choice differs from the seed only when it beats the
      seed strictly, and then it is the earliest label in the visiting
      order to reach its count. */
  lemma {:induction false} DominantTieBreak(counts: map<Emotion, nat>, order: seq<Emotion>, best: Emotion)
    ensures var r := Dominant(counts, order, best);
      r != best ==> r in order && Get(counts, best) < Get(counts, r) &&
                    forall i :: 0 <= i < FirstIndex(order, r) ==> Get(counts, order[i]) < Get(counts, r)
  {
    if order != [] {
      var next := if Get(counts, order[0]) > Get(counts, best) then order[0] else best;
      var r := Dominant(counts, order, best);
      DominantTieBreak(counts, order[1..], next);
      DominantMaximal(counts, order[1..], next);
      if r != best && r != order[0] {
        assert r != next;
        assert FirstIndex(order, r) == 1 + FirstIndex(order[1..], r);
        forall i | 0 < i < FirstIndex(order, r) ensures Get(counts, order[i]) < Get(counts, r) {
          assert order[i] == order[1..][i - 1];
        }
      }
    }
  }

  /** The dashboard's choice over a full count object. */
  function DominantLabel(counts: map<Emotion, nat>): Emotion {
    Dominant(counts, Labels, Neutral)
  }

  /** The dashboard's dominant label has a maximal count; `neutral` wins any
      tie it is part of, and otherwise the first tied label in the order
      happy, sad, angry, neutral, fearful, surprised, disgusted wins. */
  lemma DominantLabelSpec(counts: map<Emotion, nat>)
    ensures var r := DominantLabel(counts);
      (forall e :: Get(counts, e) <= Get(counts, r)) &&
      (Get(counts, Neutral) == Get(counts, r) ==> r == Neutral) &&
      (r != Neutral ==> forall i :: 0 <= i < FirstIndex(Labels, r) ==> Get(counts, Labels[i]) < Get(counts, r))
  {
    var r := DominantLabel(counts);
    DominantMaximal(counts, Labels, Neutral);
    DominantTieBreak(counts, Labels, Neutral);
    forall e ensures Get(counts, e) <= Get(counts, r) {
      LabelsComplete(e);
      var i :| 0 <= i < |Labels| && Labels[i] == e;
    }
  }

  /** Equal happy and sad counts above neutral's: happy wins by order. */
  lemma DominantExample()
    ensures DominantLabel(map[Happy := 3, Sad := 3, Angry := 0, Neutral := 2, Fearful := 0,
                              Surprised := 0, Disgusted := 0]) == Happy
  {
  }

  // ---------------------------------------------------------------------
  // The stats object

  datatype DashboardStats = DashboardStats(
    dominantEmotion: Option<Emotion>,
    emotionCounts: map<Emotion, nat>,
    averageConfidence: real,
    recentEmotions: seq<EmotionEntry>,
    totalDetections: nat)

  /** What the `stats` memo evaluates to. */
  function StatsOf(emotions: seq<EmotionEntry>): DashboardStats {
    if |emotions| == 0 then DashboardStats(None, map[], 0.0, [], 0)
    else
      var counts := CountMap(emotions);
      DashboardStats(Some(DominantLabel(counts)), counts,
                     SumConfidence(emotions) / |emotions| as real,
                     Reverse(LastN(emotions, 10)), |emotions|)
  }

  /** The `stats` computation: one pass incrementing the zero-filled counts
      and the confidence total, then the reduce, the window and the mean. */
  method ComputeStats(emotions: seq<EmotionEntry>) returns (stats: DashboardStats)
    ensures stats == StatsOf(emotions)
  {
    if |emotions| == 0 {
      return DashboardStats(None, map[], 0.0, [], 0);
    }
    var counts: map<Emotion, nat> := map[Happy := 0, Sad := 0, Angry := 0, Neutral := 0,
                                         Fearful := 0, Surprised := 0, Disgusted := 0];
    var totalConfidence := 0.0;
    forall e ensures e in counts && counts[e] == CountOf(emotions[..0], e) {
      LabelsComplete(e);
    }
    for i := 0 to |emotions|
      invariant forall e :: e in counts && counts[e] == CountOf(emotions[..i], e)
      invariant totalConfidence == SumConfidence(emotions[..i])
    {
      var entry := emotions[i];
      assert emotions[..i + 1][..i] == emotions[..i];
      counts := counts[entry.emotion := counts[entry.emotion] + 1];
      totalConfidence := totalConfidence + entry.confidence;
    }
    assert emotions[..|emotions|] == emotions;
    assert counts == CountMap(emotions);
    var dominantEmotion := DominantLabel(counts);
    var recentEmotions := Reverse(LastN(emotions, 10));
    stats := DashboardStats(Some(dominantEmotion), counts, totalConfidence / |emotions| as real,
                            recentEmotions, |emotions|);
  }

  /** The empty stream gives no dominant label, an empty count object and
      zeros; otherwise every label is counted, the counts add up to the
      total, the dominant label is present, and the recent window is the
      last min(10, n) samples, newest first. */
  lemma StatsShape(emotions: seq<EmotionEntry>)
    ensures var st := StatsOf(emotions);
      (emotions == [] ==> st.dominantEmotion.None? && st.emotionCounts == map[] &&
                          st.averageConfidence == 0.0 && st.recentEmotions == [] && st.totalDetections == 0) &&
      (emotions != [] ==>
         st.dominantEmotion.Some? && st.totalDetections == |emotions| &&
         (forall e :: e in st.emotionCounts && st.emotionCounts[e] == CountOf(emotions, e)) &&
         Total(st.emotionCounts) == |emotions|) &&
      |st.recentEmotions| == Min(10, |emotions|) &&
      (forall i :: 0 <= i < |st.recentEmotions| ==> st.recentEmotions[i] == emotions[|emotions| - 1 - i])
  {
    if emotions != [] {
      CountsSum(emotions);
      NewestWindow(emotions);
    }
  }

  /** The window, reversed, is the last min(10, n) samples, newest first. */
  lemma NewestWindow(emotions: seq<EmotionEntry>)
    ensures var r := Reverse(LastN(emotions, 10));
      |r| == Min(10, |emotions|) &&
      forall i :: 0 <= i < |r| ==> r[i] == emotions[|emotions| - 1 - i]
  {
    var n := |emotions|;
    var w := LastN(emotions, 10);
    forall j | 0 <= j < |w| ensures emotions[n - |w| + j] == w[j] {
      assert emotions == emotions[..n - |w|] + w;
    }
  }

  /** The mean confidence of valid samples lies in [0, 1]. */
  lemma AverageInRange(emotions: seq<EmotionEntry>)
    requires forall i :: 0 <= i < |emotions| ==> ValidEntry(emotions[i])
    ensures InUnitInterval(StatsOf(emotions).averageConfidence)
  {
    if emotions != [] {
      SumConfidenceBounds(emotions);
      UnitRatio(SumConfidence(emotions), |emotions| as real);
    }
  }

  // ---------------------------------------------------------------------
  // Session clock

  /** `sessionDuration`: "0:00" without a (truthy) start time, otherwise
      whole minutes and the zero-padded remaining seconds since the start. */
  function SessionDuration(sessionStartTime: Option<int>, now: int): string {
    if sessionStartTime.None? || sessionStartTime.value == 0 then IdleClock
    else MinutesText((now - sessionStartTime.value) / 1000)
  }

  /** Whole minutes, a colon and the zero-padded remaining seconds. */
  function MinutesText(seconds: int): string {
    var minutes := seconds / 60;
    var remainingSeconds := JsRem(seconds, 60);
    IntToString(minutes) + ":" + Pad2(IntToString(remainingSeconds))
  }

  /** From a start in the past the clock reads back as the elapsed whole
      seconds, with the seconds field two digits below 60. */
  lemma SessionDurationRoundTrip(sessionStartTime: Option<int>, now: int)
    requires sessionStartTime.Some? && sessionStartTime.value != 0 && sessionStartTime.value <= now
    ensures ClockSeconds(SessionDuration(sessionStartTime, now)) == Some((now - sessionStartTime.value) / 1000)
  {
    SessionDurationText(sessionStartTime, now);
    MinutesTextRoundTrip((now - sessionStartTime.value) / 1000);
  }

  /** From a truthy start the clock is the minutes text of the elapsed
      whole seconds. */
  lemma SessionDurationText(sessionStartTime: Option<int>, now: int)
    requires sessionStartTime.Some? && sessionStartTime.value != 0
    ensures SessionDuration(sessionStartTime, now) == MinutesText((now - sessionStartTime.value) / 1000)
  {
  }

  /** The memo runs only when the start time changes, in the render that
      follows the change: rendered within a second of the start, the
      dashboard's clock reads "0:00", and it keeps that text until the next
      change of the start time. */
  lemma DashboardClockAtStart(start: int, renderNow: int)
    requires start <= renderNow < start + 1000
    ensures SessionDuration(Some(start), renderNow) == IdleClock
  {
    if start != 0 {
      assert (renderNow - start) / 1000 == 0;
      assert MinutesText(0) == "0" + ":" + Pad2("0");
    }
  }

  lemma MinutesTextRoundTrip(seconds: nat)
    ensures ClockSeconds(MinutesText(seconds)) == Some(seconds)
  {
    var m, sec: nat := seconds / 60, seconds % 60;
    assert MinutesText(seconds) == NatToString(m) + ":" + Pad2(NatToString(sec));
    ClockSecondsMinutes(m, sec);
  }

  // ---------------------------------------------------------------------
  // Distribution bars

  /** The largest count among the given labels, and at least 1. */
  function MaxOver(counts: map<Emotion, nat>, order: seq<Emotion>): (m: nat)
    ensures m >= 1 && forall i :: 0 <= i < |order| ==> Get(counts, order[i]) <= m
    ensures m == 1 || exists i :: 0 <= i < |order| && Get(counts, order[i]) == m
  {
    if order == [] then 1
    else
      var rest := MaxOver(counts, order[1..]);
      assert forall i :: 1 <= i < |order| ==> order[i] == order[1..][i - 1];
      if Get(counts, order[0]) > rest then Get(counts, order[0]) else rest
  }

  /** `Math.max(...Object.values(counts), 1)`. */
  function MaxCount(counts: map<Emotion, nat>): nat {
    MaxOver(counts, Labels)
  }

  /** No count exceeds MaxCount, which is 1 or some label's count. */
  lemma MaxCountBounds(counts: map<Emotion, nat>)
    ensures MaxCount(counts) >= 1
    ensures forall e :: Get(counts, e) <= MaxCount(counts)
    ensures MaxCount(counts) == 1 || exists e :: Get(counts, e) == MaxCount(counts)
  {
    forall e ensures Get(counts, e) <= MaxCount(counts) {
      LabelsComplete(e);
      var i :| 0 <= i < |Labels| && Labels[i] == e;
    }
  }

  /** The bar width of one label: its count relative to the largest. */
  function BarPercentage(counts: map<Emotion, nat>, e: Emotion): real {
    var count := Get(counts, e);
    var maxCount := MaxCount(counts);
    if maxCount > 0 then (count as real / maxCount as real) * 100.0 else 0.0
  }

  /** Every bar lies in [0, 100]; the largest count fills its bar when it is
      positive, and a label never seen has an empty bar. */
  lemma BarPercentageRange(counts: map<Emotion, nat>, e: Emotion)
    ensures 0.0 <= BarPercentage(counts, e) <= 100.0
    ensures Get(counts, e) == MaxCount(counts) ==> BarPercentage(counts, e) == 100.0
    ensures Get(counts, e) == 0 ==> BarPercentage(counts, e) == 0.0
  {
    MaxCountBounds(counts);
    var c, m := Get(counts, e) as real, MaxCount(counts) as real;
    var q := c / m;
    UnitRatio(c, m);
    assert BarPercentage(counts, e) == q * 100.0;
    if c == m {
      DivSelf(m);
    }
  }

  lemma DivSelf(m: real)
    requires m > 0.0
    ensures m / m == 1.0
  {
  }
}
