/** The shared data contract between client and server: the seven emotion
    labels, emotion entries, mood sessions, wellness recommendations and the
    recommendation request, with the validity predicates the zod schemas
    enforce and the parsers that turn untyped request fields into typed
    values. */
module Schema {
  import opened Util

  /** The closed label set, in the fixed order the schema lists it. */
  datatype Emotion = Happy | Sad | Angry | Neutral | Fearful | Surprised | Disgusted

  const Labels: seq<Emotion> := [Happy, Sad, Angry, Neutral, Fearful, Surprised, Disgusted]

  function Name(e: Emotion): string {
    match e
    case Happy => "happy"
    case Sad => "sad"
    case Angry => "angry"
    case Neutral => "neutral"
    case Fearful => "fearful"
    case Surprised => "surprised"
    case Disgusted => "disgusted"
  }

  /** `emotionTypes.includes(s)`, returning the label when it holds. */
  function ParseLabel(s: string): (r: Option<Emotion>)
    ensures r.Some? ==> Name(r.value) == s
  {
    if s == "happy" then Some(Happy)
    else if s == "sad" then Some(Sad)
    else if s == "angry" then Some(Angry)
    else if s == "neutral" then Some(Neutral)
    else if s == "fearful" then Some(Fearful)
    else if s == "surprised" then Some(Surprised)
    else if s == "disgusted" then Some(Disgusted)
    else None
  }

  predicate IsLabel(s: string) { ParseLabel(s).Some? }

  /** Exactly the seven names are labels, each naming its own label. */
  lemma ParseLabelName(e: Emotion)
    ensures ParseLabel(Name(e)) == Some(e)
  {
  }

  /** The label list holds every label once, in the schema's order. */
  lemma LabelsComplete(e: Emotion)
    ensures e in Labels && |Labels| == 7 && Distinct(Labels)
  {
  }

  /** No label name contains a comma or a colon (they survive `split`). */
  lemma NameHasNoSeparator(e: Emotion)
    ensures ',' !in Name(e) && ':' !in Name(e) && |Name(e)| >= 1
  {
  }

  // ---------------------------------------------------------------------
  // Emotion entries

  /** One classification event. Timestamps are epoch milliseconds. */
  datatype EmotionEntry = EmotionEntry(id: string, emotion: Emotion, confidence: real, timestamp: int)

  /** The insert form: an entry without its id. */
  datatype InsertEmotion = InsertEmotion(emotion: Emotion, confidence: real, timestamp: int)

  predicate InUnitInterval(x: real) { 0.0 <= x <= 1.0 }

  predicate ValidEntry(e: EmotionEntry) { InUnitInterval(e.confidence) }

  predicate ValidInsert(e: InsertEmotion) { InUnitInterval(e.confidence) }

  /** `{...emotion, id}`: the stored entry for an insert. */
  function WithId(ins: InsertEmotion, id: string): (e: EmotionEntry)
    ensures e.id == id && WithoutId(e) == ins
    ensures ValidEntry(e) <==> ValidInsert(ins)
  {
    EmotionEntry(id, ins.emotion, ins.confidence, ins.timestamp)
  }

  function WithoutId(e: EmotionEntry): InsertEmotion {
    InsertEmotion(e.emotion, e.confidence, e.timestamp)
  }

  /** An insert record as it arrives in a JSON body: a field that is missing
      or has the wrong JSON type is None. Extra fields (such as an `id`
      sent by the client) are dropped by the schema and not represented. */
  datatype RawInsert = RawInsert(emotion: Option<string>, confidence: Option<real>, timestamp: Option<int>)

  /** `insertEmotionSchema.parse`: the label must be one of the seven and
      the confidence must lie in [0, 1]. */
  function ParseInsert(r: RawInsert): (p: Option<InsertEmotion>)
    ensures p.Some? <==> (r.emotion.Some? && IsLabel(r.emotion.value) &&
                          r.confidence.Some? && InUnitInterval(r.confidence.value) &&
                          r.timestamp.Some?)
    ensures p.Some? ==> ValidInsert(p.value) && Name(p.value.emotion) == r.emotion.value &&
                        p.value.confidence == r.confidence.value &&
                        p.value.timestamp == r.timestamp.value
  {
    if r.emotion.None? || r.confidence.None? || r.timestamp.None? then None
    else match ParseLabel(r.emotion.value)
      case None => None
      case Some(e) =>
        if InUnitInterval(r.confidence.value) then
          Some(InsertEmotion(e, r.confidence.value, r.timestamp.value))
        else None
  }

  /** The raw form of an insert, as the client would send it. */
  function RawOf(ins: InsertEmotion): RawInsert {
    RawInsert(Some(Name(ins.emotion)), Some(ins.confidence), Some(ins.timestamp))
  }

  /** A valid insert survives the trip through its JSON form. */
  lemma ParseInsertRoundTrip(ins: InsertEmotion)
    requires ValidInsert(ins)
    ensures ParseInsert(RawOf(ins)) == Some(ins)
  {
    ParseLabelName(ins.emotion);
  }

  // ---------------------------------------------------------------------
  // Mood sessions

  datatype MoodSession = MoodSession(
    id: string,
    startTime: int,
    endTime: Option<int>,
    emotions: seq<EmotionEntry>,
    dominantEmotion: Option<Emotion>,
    averageConfidence: Option<real>)

  predicate ValidSession(s: MoodSession) {
    (forall i :: 0 <= i < |s.emotions| ==> ValidEntry(s.emotions[i])) &&
    (s.averageConfidence.Some? ==> InUnitInterval(s.averageConfidence.value))
  }

  // ---------------------------------------------------------------------
  // Wellness recommendations

  /** The recommendation kinds the schema allows. The `type` field itself is
      kept as a string, because generated recommendations copy it unchecked. */
  const RecommendationKinds: seq<string> := ["breathing", "meditation", "break", "affirmation", "stretch"]

  datatype Recommendation = Recommendation(
    id: string,
    kind: string,
    title: string,
    description: string,
    duration: Option<real>,
    priority: real)

  predicate ValidRecommendation(r: Recommendation) {
    r.kind in RecommendationKinds && 1.0 <= r.priority <= 5.0
  }

  // ---------------------------------------------------------------------
  // Recommendation requests

  datatype RecommendationRequest = RecommendationRequest(
    currentEmotion: Emotion, recentEmotions: seq<Emotion>, sessionDuration: int)

  /** `aiRecommendationRequestSchema.parse` over untyped fields: every label
      must be one of the seven; a missing field is None. */
  function ParseRecommendationRequest(current: Option<string>, recent: Option<seq<string>>,
                                      duration: Option<int>): (r: Option<RecommendationRequest>)
    ensures r.Some? <==> (current.Some? && IsLabel(current.value) && recent.Some? &&
                          (forall i :: 0 <= i < |recent.value| ==> IsLabel(recent.value[i])) &&
                          duration.Some?)
    ensures r.Some? ==> Name(r.value.currentEmotion) == current.value &&
                        |r.value.recentEmotions| == |recent.value| &&
                        (forall i :: 0 <= i < |recent.value| ==>
                           Name(r.value.recentEmotions[i]) == recent.value[i])
  {
    if current.None? || recent.None? || duration.None? then None
    else match (ParseLabel(current.value), ParseLabels(recent.value))
      case (Some(c), Some(rs)) => Some(RecommendationRequest(c, rs, duration.value))
      case _ => None
  }

  /** Every string must be a label; the labels in order. */
  function ParseLabels(ss: seq<string>): (r: Option<seq<Emotion>>)
    ensures r.Some? <==> (forall i :: 0 <= i < |ss| ==> IsLabel(ss[i]))
    ensures r.Some? ==> |r.value| == |ss| &&
                        forall i :: 0 <= i < |ss| ==> Name(r.value[i]) == ss[i]
  {
    if ss == [] then Some([])
    else match (ParseLabel(ss[0]), ParseLabels(ss[1..]))
      case (Some(e), Some(rest)) => Some([e] + rest)
      case _ => None
  }

  // ---------------------------------------------------------------------
  // Helpers over entry sequences used by the aggregations

  function SumConfidence(s: seq<EmotionEntry>): real {
    if s == [] then 0.0 else SumConfidence(s[..|s| - 1]) + s[|s| - 1].confidence
  }

  function LabelsOf(s: seq<EmotionEntry>): (r: seq<Emotion>)
    ensures |r| == |s| && forall i :: 0 <= i < |s| ==> r[i] == s[i].emotion
  {
    if s == [] then [] else LabelsOf(s[..|s| - 1]) + [s[|s| - 1].emotion]
  }

  function NamesOf(s: seq<Emotion>): (r: seq<string>)
    ensures |r| == |s| && forall i :: 0 <= i < |s| ==> r[i] == Name(s[i])
  {
    if s == [] then [] else NamesOf(s[..|s| - 1]) + [Name(s[|s| - 1])]
  }

  /** A quotient of a non-negative value by a larger positive one lies in
      [0, 1]. */
  lemma UnitRatio(num: real, d: real)
    requires 0.0 <= num <= d && d > 0.0
    ensures InUnitInterval(num / d)
  {
  }

  /** A sum of confidences each in [0, 1] lies in [0, |s|]. */
  lemma {:induction false} SumConfidenceBounds(s: seq<EmotionEntry>)
    requires forall i :: 0 <= i < |s| ==> ValidEntry(s[i])
    ensures 0.0 <= SumConfidence(s) <= |s| as real
  {
    if s != [] {
      SumConfidenceBounds(s[..|s| - 1]);
    }
  }
}
