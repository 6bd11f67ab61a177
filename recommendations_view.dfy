/** The client's recommendation panel: when it asks the server, what it
    asks for, which list it shows and which card starts the breathing
    exercise. Its fallback table is the same table the server uses. */
module RecommendationsView {
  import opened Util
  import opened Text
  import opened Schema
  import opened Gateway
  import Routes

  /** `enabled: !!currentEmotion`: every label name is a non-empty string,
      so the query runs exactly when there is a current label. */
  function QueryEnabled(currentEmotion: Option<Emotion>): (r: bool)
    ensures r <==> currentEmotion.Some?
  {
    currentEmotion.Some? && Name(currentEmotion.value) != ""
  }

  /** The query key: the endpoint, the current label and the last five
      recent labels joined with commas. */
  datatype QueryKey = QueryKey(current: Option<Emotion>, recent: string)

  function KeyOf(currentEmotion: Option<Emotion>, recentEmotions: seq<Emotion>): QueryKey {
    QueryKey(currentEmotion, Join(NamesOf(LastN(recentEmotions, 5)), ","))
  }

  /** The server's parser reads the key's label list back as exactly the
      last (at most five) recent labels, in order. */
  lemma KeyRoundTrip(currentEmotion: Option<Emotion>, recentEmotions: seq<Emotion>)
    ensures var back := Routes.RecentFromQuery(Some(KeyOf(currentEmotion, recentEmotions).recent));
      back == LastN(recentEmotions, 5) && |back| == Min(5, |recentEmotions|)
  {
    Routes.RecentFromQueryRoundTrip(LastN(recentEmotions, 5));
  }

  /** `recommendations || (currentEmotion ? fallback[currentEmotion] : [])`:
      `data` is the server's answer, None while there is none. An empty
      array from the server is truthy and is shown as it is. */
  function DisplayRecommendations(currentEmotion: Option<Emotion>, data: Option<seq<Recommendation>>)
    : (r: seq<Recommendation>)
    ensures data.Some? ==> r == data.value
    ensures data.None? && currentEmotion.None? ==> r == []
  {
    if data.Some? then data.value
    else if currentEmotion.Some? then Fallback(currentEmotion.value)
    else []
  }

  /** Without an answer the panel shows the fallback table's two entries
      for the current label, with priorities 1 and 2. */
  lemma DisplayFallback(e: Emotion)
    ensures var r := DisplayRecommendations(Some(e), None);
      r == Fallback(e) && |r| == 2 && r[0].priority == 1.0 && r[1].priority == 2.0 &&
      ValidRecommendation(r[0]) && ValidRecommendation(r[1])
  {
    FallbackShape(FallbackCopy, e);
  }

  /** What the panel renders. `RenderFails` stands for the render that
      throws: a card looks its kind up in the colour table, which has only
      the five allowed kinds, and splits the entry it finds. */
  datatype Panel = Placeholder | Skeletons | Cards(recs: seq<Recommendation>) | RenderFails

  /** The placeholder without a current label, skeletons while loading, and
      otherwise the cards of the displayed list, unless one of them has a
      kind outside the colour table. */
  function Render(currentEmotion: Option<Emotion>, isLoading: bool, data: Option<seq<Recommendation>>)
    : (p: Panel)
    ensures p == Placeholder <==> currentEmotion.None?
    ensures p == Skeletons <==> currentEmotion.Some? && isLoading
    ensures p == RenderFails <==>
              currentEmotion.Some? && !isLoading &&
              exists i :: 0 <= i < |DisplayRecommendations(currentEmotion, data)| &&
                          DisplayRecommendations(currentEmotion, data)[i].kind !in RecommendationKinds
    ensures p.Cards? ==>
              p.recs == DisplayRecommendations(currentEmotion, data) &&
              forall i :: 0 <= i < |p.recs| ==> p.recs[i].kind in RecommendationKinds
  {
    if currentEmotion.None? then Placeholder
    else if isLoading then Skeletons
    else
      var recs := DisplayRecommendations(currentEmotion, data);
      if exists i :: 0 <= i < |recs| && recs[i].kind !in RecommendationKinds then RenderFails
      else Cards(recs)
  }

  /** A generated recommendation of an unknown kind, which the server
      passes through unchecked, makes the panel's render throw. */
  lemma UnknownKindFailsRender(e: Emotion, clock: nat -> nat)
    ensures var recs := Normalise([ModelItem("yoga", "t", "d", None, Some(1.0))], clock);
      Render(Some(e), false, Some(recs)) == RenderFails
  {
    var recs := Normalise([ModelItem("yoga", "t", "d", None, Some(1.0))], clock);
    KindUnchecked(clock);
    assert recs[0].kind !in RecommendationKinds;
  }

  /** The fallback table always renders as cards. */
  lemma FallbackRenders(e: Emotion)
    ensures Render(Some(e), false, None) == Cards(Fallback(e))
  {
    DisplayFallback(e);
  }

  /** `handleAction`: whether the card's button starts the breathing
      exercise. */
  function StartsBreathing(rec: Recommendation): bool {
    rec.kind == "breathing"
  }

  /** Only breathing cards start the exercise; every other allowed kind
      does nothing. */
  lemma StartsBreathingSpec(rec: Recommendation)
    requires ValidRecommendation(rec)
    ensures StartsBreathing(rec) <==> rec.kind == RecommendationKinds[0]
    ensures !StartsBreathing(rec) ==> rec.kind in RecommendationKinds[1..]
  {
  }
}
