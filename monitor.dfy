/** The camera monitor's decision step: from the expression scores of a
    detected face it picks the label with the greatest score, shows it, and
    reports an entry when the score is above the emit threshold. The face
    detector itself is an input. */
module Monitor {
  import opened Util
  import opened Schema

  /** `Object.entries(expressions)`: the detector's scores in iteration
      order. */
  type Expressions = seq<(string, real)>

  /** `emotionMap[emotion]` is truthy exactly for the seven label names. */
  predicate Mapped(p: (string, real)) { IsLabel(p.0) }

  /** A detection is reported only above this score. */
  const EmitThreshold: real := 0.3

  /** The index the running maximum ends on (`conf > maxConfidence &&
      emotionMap[emotion]`, visiting the entries in order). */
  function Winner(s: Expressions): (w: Option<nat>)
    ensures w.Some? ==> w.value < |s| && Mapped(s[w.value]) && s[w.value].1 > 0.0
  {
    if s == [] then None
    else
      var w := Winner(s[..|s| - 1]);
      var best := if w.None? then 0.0 else s[w.value].1;
      if s[|s| - 1].1 > best && Mapped(s[|s| - 1]) then Some(|s| - 1) else w
  }

  /** The winner is the first entry with the greatest mapped score, and
      there is none exactly when no mapped score exceeds 0. */
  lemma {:induction false} WinnerSpec(s: Expressions)
    ensures var w := Winner(s);
      (w.None? <==> forall i :: 0 <= i < |s| && Mapped(s[i]) ==> s[i].1 <= 0.0) &&
      (w.Some? ==>
         (forall i :: 0 <= i < |s| && Mapped(s[i]) ==> s[i].1 <= s[w.value].1) &&
         (forall j :: 0 <= j < w.value && Mapped(s[j]) ==> s[j].1 < s[w.value].1))
    decreases |s|
  {
    if s != [] {
      var init := s[..|s| - 1];
      var last := s[|s| - 1];
      WinnerSpec(init);
      var w := Winner(init);
      assert forall i :: 0 <= i < |init| ==> s[i] == init[i];
      if w.Some? {
        assert s[w.value] == init[w.value];
      }
    }
  }

  /** The chosen label and score: `neutral` and 0 when nothing won. */
  function Select(s: Expressions): (r: (Emotion, real))
    ensures r.1 >= 0.0
    ensures forall i :: 0 <= i < |s| && Mapped(s[i]) ==> s[i].1 <= r.1
    ensures r.1 == 0.0 ==> r.0 == Neutral
    ensures r.1 > 0.0 ==> exists i :: 0 <= i < |s| && s[i] == (Name(r.0), r.1)
  {
    WinnerSpec(s);
    match Winner(s)
    case None => (Neutral, 0.0)
    case Some(k) =>
      var e := ParseLabel(s[k].0).value;
      assert s[k] == (Name(e), s[k].1);
      (e, s[k].1)
  }

  /** A key outside the seven labels never changes the choice. */
  lemma UnmappedIgnored(s: Expressions, p: (string, real))
    requires !Mapped(p)
    ensures Winner(s + [p]) == Winner(s)
    ensures Select(s + [p]) == Select(s)
  {
    assert (s + [p])[..|s|] == s;
  }

  /** A tie goes to the earlier key: appending a score equal to the current
      maximum keeps the choice. */
  lemma TieKeepsEarlier(s: Expressions, p: (string, real))
    requires p.1 == Select(s).1
    ensures Select(s + [p]) == Select(s)
  {
    assert (s + [p])[..|s|] == s;
  }

  /** The loop over the entries, with the running maximum in two locals. */
  method SelectEmotion(expressions: Expressions) returns (maxEmotion: Emotion, maxConfidence: real)
    ensures (maxEmotion, maxConfidence) == Select(expressions)
  {
    maxEmotion := Neutral;
    maxConfidence := 0.0;
    ghost var w: Option<nat> := None;
    for i := 0 to |expressions|
      invariant w == Winner(expressions[..i])
      invariant w.None? ==> maxEmotion == Neutral && maxConfidence == 0.0
      invariant w.Some? ==> w.value < i && maxConfidence == expressions[w.value].1 &&
                            ParseLabel(expressions[w.value].0) == Some(maxEmotion)
    {
      assert expressions[..i + 1][..i] == expressions[..i];
      var (emotion, conf) := expressions[i];
      var mapped := ParseLabel(emotion);
      if conf > maxConfidence && mapped.Some? {
        maxConfidence := conf;
        maxEmotion := mapped.value;
        w := Some(i);
      }
    }
    assert expressions[..|expressions|] == expressions;
  }

  /** The emitted entry carries the chosen label and score; nothing is
      emitted at or below the threshold. */
  function EmittedEntry(s: Expressions, id: string, now: int): (r: Option<EmotionEntry>)
    ensures r.Some? <==> Select(s).1 > EmitThreshold
    ensures r.Some? ==> r.value.id == id && r.value.timestamp == now &&
                        r.value.emotion == Select(s).0 && r.value.confidence == Select(s).1
  {
    var (e, c) := Select(s);
    if c > EmitThreshold then Some(EmotionEntry(id, e, c, now)) else None
  }

  /** An emitted entry is valid whenever the detector's scores lie in
      [0, 1], and its label scored highest among the mapped keys. */
  lemma EmittedEntryValid(s: Expressions, id: string, now: int)
    requires forall i :: 0 <= i < |s| ==> InUnitInterval(s[i].1)
    requires EmittedEntry(s, id, now).Some?
    ensures ValidEntry(EmittedEntry(s, id, now).value)
    ensures forall i :: 0 <= i < |s| && Mapped(s[i]) ==> s[i].1 <= EmittedEntry(s, id, now).value.confidence
  {
    WinnerSpec(s);
    var k := Winner(s).value;
    assert Select(s).1 == s[k].1;
  }

  /** What one detection attempt saw. `NotReady` covers a missing video,
      canvas or model and a video not yet playing; `Failed` is a thrown
      detection. */
  datatype Detection = NotReady | Failed | NoFace | Face(expressions: Expressions)

  class EmotionMonitor {
    var currentEmotion: Option<Emotion>
    var confidence: real

    /** The shown confidence is a score that won, or 0 with no label. */
    predicate Valid()
      reads this
    {
      confidence >= 0.0 && (currentEmotion.None? ==> confidence == 0.0)
    }

    constructor()
      ensures Valid() && currentEmotion == None && confidence == 0.0
    {
      currentEmotion := None;
      confidence := 0.0;
    }

    /** `detectEmotions`: only a detected face updates the shown label and
        confidence, and only a score above the threshold is reported. */
    method Detect(d: Detection, id: string, now: int) returns (emitted: Option<EmotionEntry>)
      requires Valid()
      modifies this
      ensures Valid()
      ensures !d.Face? ==> emitted.None? && currentEmotion == old(currentEmotion) && confidence == old(confidence)
      ensures d.Face? ==>
                currentEmotion == Some(Select(d.expressions).0) && confidence == Select(d.expressions).1 &&
                emitted == EmittedEntry(d.expressions, id, now)
    {
      emitted := None;
      if !d.Face? {
        return;
      }
      var maxEmotion, maxConfidence := SelectEmotion(d.expressions);
      currentEmotion := Some(maxEmotion);
      confidence := maxConfidence;
      if maxConfidence > EmitThreshold {
        emitted := Some(EmotionEntry(id, maxEmotion, maxConfidence, now));
      }
    }

    /** The monitoring effect: turning monitoring off clears the shown
        label and confidence; turning it on leaves them. */
    method MonitoringChanged(isMonitoring: bool)
      requires Valid()
      modifies this
      ensures Valid()
      ensures !isMonitoring ==> currentEmotion == None && confidence == 0.0
      ensures isMonitoring ==> currentEmotion == old(currentEmotion) && confidence == old(confidence)
    {
      if !isMonitoring {
        currentEmotion := None;
        confidence := 0.0;
      }
    }
  }
}
