/** The HTTP handlers' decisions: each handler is a function (or, for the
    one that writes, a method over the store) from the request's fields to
    a response. A body or query field that is missing, or has the wrong
    JSON type, is None. */
module Routes {
  import opened Util
  import opened Text
  import opened Schema
  import opened Storage
  import opened Gateway

  // ---------------------------------------------------------------------
  // POST /api/emotions

  /** The request body: `emotions` (an array of insert records) and
      `sessionId` (a string). */
  datatype EmotionsBody = EmotionsBody(emotions: Option<seq<RawInsert>>, sessionId: Option<string>)

  /** A body that passed the schema. */
  datatype ValidBody = ValidBody(sessionId: string, inserts: seq<InsertEmotion>)

  datatype EmotionsResponse = Saved(count: nat) | InvalidEmotionData

  /** `z.array(insertEmotionSchema).parse`: every record must parse. */
  function ParseInserts(raws: seq<RawInsert>): (r: Option<seq<InsertEmotion>>)
    ensures r.Some? <==> forall i :: 0 <= i < |raws| ==> ParseInsert(raws[i]).Some?
    ensures r.Some? ==> |r.value| == |raws| &&
                        forall i :: 0 <= i < |raws| ==> ParseInsert(raws[i]) == Some(r.value[i])
  {
    if raws == [] then Some([])
    else match (ParseInsert(raws[0]), ParseInserts(raws[1..]))
      case (Some(x), Some(rest)) => Some([x] + rest)
      case _ => None
  }

  /** The whole body is checked before anything is stored. */
  function ParseEmotionsBody(b: EmotionsBody): (r: Option<ValidBody>)
    ensures r.Some? <==> b.emotions.Some? && b.sessionId.Some? &&
                         forall i :: 0 <= i < |b.emotions.value| ==> ParseInsert(b.emotions.value[i]).Some?
    ensures r.Some? ==> r.value.sessionId == b.sessionId.value &&
                        |r.value.inserts| == |b.emotions.value| &&
                        forall i :: 0 <= i < |b.emotions.value| ==>
                          ParseInsert(b.emotions.value[i]) == Some(r.value.inserts[i])
  {
    if b.emotions.None? || b.sessionId.None? then None
    else match ParseInserts(b.emotions.value)
      case Some(ins) => Some(ValidBody(b.sessionId.value, ins))
      case None => None
  }

  /** The body a client sends for a list of valid inserts. */
  function BodyOf(sessionId: string, inserts: seq<InsertEmotion>): EmotionsBody {
    EmotionsBody(Some(seq(|inserts|, i requires 0 <= i < |inserts| => RawOf(inserts[i]))), Some(sessionId))
  }

  /** Every body built from valid inserts is accepted as it was built. */
  lemma ParseEmotionsBodyRoundTrip(sessionId: string, inserts: seq<InsertEmotion>)
    requires forall i :: 0 <= i < |inserts| ==> ValidInsert(inserts[i])
    ensures ParseEmotionsBody(BodyOf(sessionId, inserts)) == Some(ValidBody(sessionId, inserts))
  {
    var raws := BodyOf(sessionId, inserts).emotions.value;
    forall i | 0 <= i < |inserts| ensures ParseInsert(raws[i]) == Some(inserts[i]) {
      ParseInsertRoundTrip(inserts[i]);
    }
    var r := ParseEmotionsBody(BodyOf(sessionId, inserts));
    assert r.value.inserts == inserts;
  }

  /** The entries stored for the inserts; `freshId(i)` is the UUID drawn
      for the i-th one. */
  function Stored(inserts: seq<InsertEmotion>, freshId: nat -> string): (r: seq<EmotionEntry>)
    ensures |r| == |inserts|
    ensures forall i :: 0 <= i < |r| ==> r[i].id == freshId(i) && WithoutId(r[i]) == inserts[i]
  {
    seq(|inserts|, i requires 0 <= i < |inserts| => WithId(inserts[i], freshId(i)))
  }

  /** The handler. A body that fails the schema answers 400 and leaves the
      store as it was. Otherwise the session is created at `now` only when
      it is absent, every insert is appended to the session's list in the
      body's order, and the count is the number of inserts. */
  method PostEmotions(store: MemStorage, body: EmotionsBody, now: int, freshId: nat -> string)
    returns (r: EmotionsResponse)
    requires store.Valid()
    modifies store
    ensures store.Valid()
    ensures ParseEmotionsBody(body).None? ==>
              r == InvalidEmotionData && unchanged(store)
    ensures ParseEmotionsBody(body).Some? ==>
              var sid := body.sessionId.value;
              var added := Stored(ParseEmotionsBody(body).value.inserts, freshId);
              r == Saved(|added|) &&
              store.sessions == (if sid in old(store.sessions) then old(store.sessions)
                                 else old(store.sessions)[sid := MoodSession(sid, now, None, [], None, None)]) &&
              store.sessionOrder == SetKey(old(store.sessionOrder), sid) &&
              store.GetEmotionsBySession(sid) == old(store.GetEmotionsBySession(sid)) + added &&
              (forall k :: k != sid ==> store.GetEmotionsBySession(k) == old(store.GetEmotionsBySession(k))) &&
              multiset(AllEntries(store.entryOrder, store.entries)) ==
                multiset(AllEntries(old(store.entryOrder), old(store.entries))) + multiset(added)
  {
    var parsed := ParseEmotionsBody(body);
    if parsed.None? {
      return InvalidEmotionData;
    }
    var sid := parsed.value.sessionId;
    if store.GetSession(sid).None? {
      var _ := store.CreateSession(sid, now);
    }
    AppendAll(store, sid, parsed.value.inserts, freshId);
    r := Saved(|parsed.value.inserts|);
  }

  /** `Promise.all(emotions.map(createEmotionEntry))`: each call runs to
      completion before the next starts, so the entries are appended in the
      body's order. */
  method AppendAll(store: MemStorage, sid: string, ins: seq<InsertEmotion>, freshId: nat -> string)
    requires store.Valid()
    modifies store
    ensures store.Valid()
    ensures store.sessions == old(store.sessions) && store.sessionOrder == old(store.sessionOrder)
    ensures Lookup(store.entries, sid) == Lookup(old(store.entries), sid) + Stored(ins, freshId)
    ensures forall k :: k != sid ==> Lookup(store.entries, k) == Lookup(old(store.entries), k)
    ensures multiset(AllEntries(store.entryOrder, store.entries)) ==
            multiset(AllEntries(old(store.entryOrder), old(store.entries))) + multiset(Stored(ins, freshId))
  {
    ghost var added := Stored(ins, freshId);
    for i := 0 to |ins|
      invariant store.Valid()
      invariant store.sessions == old(store.sessions) && store.sessionOrder == old(store.sessionOrder)
      invariant Lookup(store.entries, sid) == Lookup(old(store.entries), sid) + added[..i]
      invariant forall k :: k != sid ==> Lookup(store.entries, k) == Lookup(old(store.entries), k)
      invariant multiset(AllEntries(store.entryOrder, store.entries)) ==
                multiset(AllEntries(old(store.entryOrder), old(store.entries))) + multiset(added[..i])
    {
      ghost var before := store.entries;
      var e := store.CreateEmotionEntry(sid, ins[i], freshId(i));
      AppendStep(before, sid, e, Lookup(old(store.entries), sid), added, i);
      forall k | k != sid ensures Lookup(store.entries, k) == Lookup(old(store.entries), k) {
        LookupAfterAppend(before, sid, e, k);
      }
    }
    assert added[..|ins|] == added;
  }

  lemma AppendStep(m: map<string, seq<EmotionEntry>>, sid: string, e: EmotionEntry,
                   start: seq<EmotionEntry>, added: seq<EmotionEntry>, i: nat)
    requires i < |added| && added[i] == e
    requires Lookup(m, sid) == start + added[..i]
    ensures added[..i + 1] == added[..i] + [e]
    ensures multiset(added[..i + 1]) == multiset(added[..i]) + multiset{e}
    ensures Lookup(m[sid := Lookup(m, sid) + [e]], sid) == start + added[..i + 1]
  {
    assert added[..i + 1] == added[..i] + [e];
  }

  // ---------------------------------------------------------------------
  // GET /api/recommendations

  datatype RecommendationsResponse = InvalidEmotionType | Recommendations(recs: seq<Recommendation>)

  /** `currentEmotion || "neutral"` checked against the label set. */
  function CurrentFromQuery(q: Option<string>): (r: Option<Emotion>)
    ensures (q.None? || q.value == []) ==> r == Some(Neutral)
    ensures q.Some? && q.value != [] ==> (r.Some? <==> IsLabel(q.value))
    ensures r.Some? && q.Some? && q.value != [] ==> Name(r.value) == q.value
  {
    var name := if q.None? || q.value == "" then "neutral" else q.value;
    ParseLabel(name)
  }

  /** The labels among `ss`, in order; anything else (an unknown word, an
      empty piece) is dropped. */
  function KeepLabels(ss: seq<string>): (r: seq<Emotion>)
    ensures |r| <= |ss|
  {
    if ss == [] then []
    else match ParseLabel(ss[0])
      case Some(e) => [e] + KeepLabels(ss[1..])
      case None => KeepLabels(ss[1..])
  }

  /** Filtering a concatenation filters each part. */
  lemma {:induction false} KeepLabelsAppend(a: seq<string>, b: seq<string>)
    ensures KeepLabels(a + b) == KeepLabels(a) + KeepLabels(b)
    decreases |a|
  {
    if a == [] {
      assert a + b == b;
    } else {
      var ab := a + b;
      assert ab[0] == a[0] && ab[1..] == a[1..] + b;
      KeepLabelsAppend(a[1..], b);
      var head := KeepLabels([a[0]]);
      KeepLabelsSingle(a[0]);
      assert KeepLabels(ab) == head + KeepLabels(ab[1..]);
      assert KeepLabels(a) == head + KeepLabels(a[1..]);
    }
  }

  /** A single piece is kept, as its label, exactly when it names one. */
  lemma KeepLabelsSingle(x: string)
    ensures KeepLabels([x]) == (if IsLabel(x) then [ParseLabel(x).value] else [])
  {
    assert [x][1..] == [];
  }

  /** `recentEmotions.split(",").filter(isLabel)`. */
  function RecentFromQuery(q: Option<string>): seq<Emotion> {
    KeepLabels(Split(if q.None? then "" else q.value, ','))
  }

  /** A list of labels joined with commas (the client's query value) comes
      back as the same list; an empty value gives no labels. */
  lemma RecentFromQueryRoundTrip(es: seq<Emotion>)
    ensures RecentFromQuery(Some(Join(NamesOf(es), ","))) == es
    ensures RecentFromQuery(None) == []
  {
    assert Split("", ',') == [""] by { SplitSingle("", ','); }
    assert !IsLabel("");
    assert KeepLabels([""]) == [];
    if es != [] {
      var ns := NamesOf(es);
      forall k | 0 <= k < |ns| ensures ',' !in ns[k] {
        NameHasNoSeparator(es[k]);
      }
      SplitJoin(ns, ',');
      KeepNames(es);
    }
  }

  lemma {:induction false} KeepNames(es: seq<Emotion>)
    ensures KeepLabels(NamesOf(es)) == es
    decreases |es|
  {
    if es != [] {
      var init := es[..|es| - 1];
      var last := es[|es| - 1];
      calc {
        KeepLabels(NamesOf(es));
        KeepLabels(NamesOf(init) + [Name(last)]);
        { KeepLabelsAppend(NamesOf(init), [Name(last)]); }
        KeepLabels(NamesOf(init)) + KeepLabels([Name(last)]);
        { KeepNames(init); KeepName(last); }
        init + [last];
        es;
      }
    }
  }

  lemma KeepName(e: Emotion)
    ensures KeepLabels([Name(e)]) == [e]
  {
    ParseLabelName(e);
    assert [Name(e)][1..] == [];
  }

  /** `parseInt(sessionDuration) || 0`: a value that does not start with a
      number (or a missing one) is 0. */
  function DurationFromQuery(q: Option<string>): (d: int)
    ensures (q.None? || ParseInt(q.value).None?) ==> d == 0
  {
    if q.None? then 0
    else match ParseInt(q.value)
      case None => 0
      case Some(v) => v
  }

  /** Every integer written in decimal is read back. */
  lemma DurationFromQueryRoundTrip(i: int)
    ensures DurationFromQuery(Some(IntToString(i))) == i
  {
    ParseIntRoundTrip(i);
  }

  /** The handler: `hasKey`, `generate`, `parse` and `clock` stand for the
      recommender's environment. */
  function GetRecommendations(
    current: Option<string>, recent: Option<string>, duration: Option<string>,
    hasKey: bool, generate: PromptContext -> Option<string>, parse: string -> Parsed, clock: nat -> nat)
    : (r: RecommendationsResponse)
    ensures r == InvalidEmotionType <==> current.Some? && current.value != [] && !IsLabel(current.value)
  {
    match CurrentFromQuery(current)
    case None => InvalidEmotionType
    case Some(e) =>
      Recommendations(GetWellnessRecommendations(
        e, RecentFromQuery(recent), DurationFromQuery(duration), hasKey, generate, parse, clock))
  }

  /** A named label is used as the current emotion, and a missing or empty
      one is `neutral`; the recent labels and the duration are the parsed
      query values. */
  lemma GetRecommendationsSpec(
    e: Emotion, current: Option<string>, recent: Option<string>, duration: Option<string>,
    hasKey: bool, generate: PromptContext -> Option<string>, parse: string -> Parsed, clock: nat -> nat)
    requires current == Some(Name(e)) || (e == Neutral && (current.None? || current == Some("")))
    ensures GetRecommendations(current, recent, duration, hasKey, generate, parse, clock) ==
            Recommendations(GetWellnessRecommendations(
              e, RecentFromQuery(recent), DurationFromQuery(duration), hasKey, generate, parse, clock))
  {
    ParseLabelName(e);
  }

  // ---------------------------------------------------------------------
  // GET /api/sessions/:id

  datatype SessionResponse = SessionNotFound | SessionFound(session: MoodSession)

  /** `{...session, emotions}`: 404 for an unknown id; otherwise the stored
      session with its `emotions` field replaced by the session's entry list
      (which may hold entries posted before the session existed). */
  function GetSessionWithEmotions(store: MemStorage, id: string): (r: SessionResponse)
    reads store
    ensures r == SessionNotFound <==> id !in store.sessions
    ensures r.SessionFound? ==>
              r.session.emotions == store.GetEmotionsBySession(id) &&
              r.session.(emotions := []) == store.sessions[id].(emotions := [])
  {
    match store.GetSession(id)
    case None => SessionNotFound
    case Some(s) => SessionFound(Merge(s, EmptyPatch.(emotions := Some(store.GetEmotionsBySession(id)))))
  }

  // ---------------------------------------------------------------------
  // POST /api/companion

  datatype CompanionResponse = InvalidRequest | Message(message: string)

  /** `z.string().min(1).max(200)` on the `emotion` field. */
  function CompanionInput(emotion: Option<string>): (r: Option<string>)
    ensures r.Some? <==> emotion.Some? && 1 <= |emotion.value| <= 200
    ensures r.Some? ==> r.value == emotion.value
  {
    if emotion.Some? && 1 <= |emotion.value| <= 200 then emotion else None
  }

  /** The handler: `reply(text)` is the model's answer for the user's text,
      None when the call throws. */
  function PostCompanion(emotion: Option<string>, hasKey: bool, reply: string -> Option<string>)
    : (r: CompanionResponse)
    ensures r == InvalidRequest <==> CompanionInput(emotion).None?
  {
    match CompanionInput(emotion)
    case None => InvalidRequest
    case Some(text) => Message(CompanionMessage(hasKey, reply(text)))
  }

  /** A valid request is always answered with the companion's message for
      that text, so the handler's 400 comes only from the schema. */
  lemma PostCompanionAnswers(text: string, hasKey: bool, reply: string -> Option<string>)
    requires 1 <= |text| <= 200
    ensures PostCompanion(Some(text), hasKey, reply) == Message(CompanionMessage(hasKey, reply(text)))
  {
  }
}
