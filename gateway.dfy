/** The server's recommendation gateway: the fixed fallback table, the
    decision between the fallback and a generated answer, the extraction of
    the JSON object from the model's text, the normalisation of the
    generated items, and the companion message. The language model itself,
    `JSON.parse` and the clock are parameters. */
module Gateway {
  import opened Util
  import opened Text
  import opened Schema

  // ---------------------------------------------------------------------
  // The fallback table

  /** Position of a label in the schema's label list. */
  function Ordinal(e: Emotion): (i: nat)
    ensures i < |Labels| && Labels[i] == e
  {
    match e
    case Happy => 0
    case Sad => 1
    case Angry => 2
    case Neutral => 3
    case Fearful => 4
    case Surprised => 5
    case Disgusted => 6
  }

  /** The texts of the fallback table: titles and descriptions in table
      order, two per label. No fact proved about the table depends on them,
      so those facts are stated for any copy. */
  datatype Copy = Copy(titles: seq<string>, descriptions: seq<string>)

  const FallbackCopy: Copy := Copy(
    ["Embrace the Joy", "Energizing Stretch",
     "Calming Breaths", "Self-Compassion",
     "Cool Down Breaths", "Take a Break",
     "Mindful Moment", "Gentle Movement",
     "Grounding Breaths", "You Are Safe",
     "Centering Breaths", "Process the Moment",
     "Fresh Start", "Change of Scenery"],
    ["Take a moment to appreciate what's making you happy right now.",
     "Channel your positive energy with a quick stretch routine.",
     "Deep breathing can help ease sadness and bring clarity.",
     "Remember: It's okay to feel this way. You are doing your best.",
     "Slow, deep breaths can help release tension and anger.",
     "Step away for a moment. A short walk can help clear your mind.",
     "Use this calm state for a brief mindfulness practice.",
     "Light stretching can help maintain your balanced state.",
     "Focus on your breath to feel more grounded and secure.",
     "Remind yourself: You are safe in this moment. This feeling will pass.",
     "Take a moment to center yourself after the surprise.",
     "Give yourself time to process what just happened.",
     "Clear your mind with calming breaths.",
     "A brief change of environment can help shift your mood."])

  function Pick(ss: seq<string>, i: nat): string {
    if i < |ss| then ss[i] else ""
  }

  /** `fallbackRecommendations[e]`: the two canned recommendations for a
      label. */
  function Fallback(e: Emotion): seq<Recommendation> {
    TableWith(FallbackCopy, e)
  }

  function TableWith(c: Copy, e: Emotion): seq<Recommendation> {
    [EntryWith(c, e, 0), EntryWith(c, e, 1)]
  }

  /** Entry k of a label: priority k + 1. */
  function EntryWith(c: Copy, e: Emotion, k: nat): Recommendation
    requires k < 2
  {
    var n := 2 * Ordinal(e) + k;
    Recommendation(FallbackId(e, k), FallbackKind(e, k), Pick(c.titles, n),
                   Pick(c.descriptions, n), FallbackDuration(e, k), (k + 1) as real)
  }

  /** The table numbers its entries "1" to "14" in label order, two per
      label. */
  function FallbackId(e: Emotion, k: nat): string
    requires k < 2
  {
    NatToString(2 * Ordinal(e) + k + 1)
  }

  function FallbackKind(e: Emotion, k: nat): string
    requires k < 2
  {
    match e
    case Happy => if k == 0 then "affirmation" else "stretch"
    case Sad => if k == 0 then "breathing" else "affirmation"
    case Angry => if k == 0 then "breathing" else "break"
    case Neutral => if k == 0 then "meditation" else "stretch"
    case Fearful => if k == 0 then "breathing" else "affirmation"
    case Surprised => if k == 0 then "breathing" else "break"
    case Disgusted => if k == 0 then "breathing" else "break"
  }

  /** Minutes; None where the table entry has no duration. */
  function FallbackDuration(e: Emotion, k: nat): Option<real>
    requires k < 2
  {
    match e
    case Happy => if k == 0 then None else Some(5.0)
    case Sad => if k == 0 then Some(4.0) else None
    case Angry => if k == 0 then Some(5.0) else Some(10.0)
    case Neutral => if k == 0 then Some(5.0) else Some(3.0)
    case Fearful => if k == 0 then Some(5.0) else None
    case Surprised => if k == 0 then Some(3.0) else Some(5.0)
    case Disgusted => if k == 0 then Some(4.0) else Some(5.0)
  }

  /** The ids as the table spells them. */
  lemma FallbackIdsSpelled()
    ensures FallbackId(Happy, 0) == "1" && FallbackId(Happy, 1) == "2"
    ensures FallbackId(Sad, 0) == "3" && FallbackId(Sad, 1) == "4"
    ensures FallbackId(Angry, 0) == "5" && FallbackId(Angry, 1) == "6"
    ensures FallbackId(Neutral, 0) == "7" && FallbackId(Neutral, 1) == "8"
    ensures FallbackId(Fearful, 0) == "9" && FallbackId(Fearful, 1) == "10"
    ensures FallbackId(Surprised, 0) == "11" && FallbackId(Surprised, 1) == "12"
    ensures FallbackId(Disgusted, 0) == "13" && FallbackId(Disgusted, 1) == "14"
  {
  }

  /** Every label has two valid recommendations, priorities 1 then 2, whose
      ids are the decimal numbers 2k+1 and 2k+2 for the label's position k. */
  lemma FallbackShape(c: Copy, e: Emotion)
    ensures var t := TableWith(c, e);
      |t| == 2 && t[0].priority == 1.0 && t[1].priority == 2.0 &&
      ValidRecommendation(t[0]) && ValidRecommendation(t[1]) &&
      t[0].id == NatToString(2 * Ordinal(e) + 1) && t[1].id == NatToString(2 * Ordinal(e) + 2)
  {
    FallbackKindValid(e, 0);
    FallbackKindValid(e, 1);
  }

  lemma FallbackKindValid(e: Emotion, k: nat)
    requires k < 2
    ensures FallbackKind(e, k) in RecommendationKinds
  {
  }

  /** The fourteen ids are pairwise distinct across the whole table. */
  lemma FallbackIdsDistinct(e1: Emotion, k1: nat, e2: Emotion, k2: nat)
    requires k1 < 2 && k2 < 2 && (e1 != e2 || k1 != k2)
    ensures FallbackId(e1, k1) != FallbackId(e2, k2)
  {
    var n1 := 2 * Ordinal(e1) + k1 + 1;
    var n2 := 2 * Ordinal(e2) + k2 + 1;
    if NatToString(n1) == NatToString(n2) {
      NatToStringInjective(n1, n2);
    }
  }

  // ---------------------------------------------------------------------
  // Extracting the JSON object from the model's text

  /** Index of the last occurrence of `c`, or |s| when there is none. */
  function LastIndexOf(s: string, c: char): (i: nat)
    ensures i <= |s|
    ensures i < |s| ==> s[i] == c && forall k :: i < k < |s| ==> s[k] != c
    ensures i == |s| ==> forall k :: 0 <= k < |s| ==> s[k] != c
  {
    if s == [] then 0
    else if s[|s| - 1] == c then |s| - 1
    else
      var j := LastIndexOf(s[..|s| - 1], c);
      if j == |s| - 1 then |s| else j
  }

  /** `content.match(/\{[\s\S]*\}/)`, falling back to the whole text: from
      the first `{` to the last `}` when some `{` precedes some `}`. */
  function ExtractJson(content: string): string {
    var i := FirstIndex(content, '{');
    var j := LastIndexOf(content, '}');
    if i < j < |content| then content[i..j + 1] else content
  }

  /** Some `{` precedes some `}`: the condition under which the regular
      expression matches. */
  predicate HasBraces(content: string) {
    exists a, b :: 0 <= a < b < |content| && content[a] == '{' && content[b] == '}'
  }

  /** The leftmost-longest match: a `{` at i with none before it and a `}`
      at j > i with none after it. */
  predicate ObjectSpan(content: string, i: int, j: int) {
    0 <= i < j < |content| && content[i] == '{' && content[j] == '}' &&
    (forall k :: 0 <= k < i ==> content[k] != '{') &&
    (forall k :: j < k < |content| ==> content[k] != '}')
  }

  /** When the regular expression matches, the match is the span from the
      first `{` to the last `}`, and the extraction returns it; otherwise the
      text is used whole. */
  lemma ExtractJsonSpec(content: string)
    ensures HasBraces(content) ==> exists i, j :: ObjectSpan(content, i, j)
    ensures forall i, j :: ObjectSpan(content, i, j) ==> ExtractJson(content) == content[i..j + 1]
    ensures !HasBraces(content) ==> ExtractJson(content) == content
  {
    var i := FirstIndex(content, '{');
    var j := LastIndexOf(content, '}');
    if HasBraces(content) {
      var a, b :| 0 <= a < b < |content| && content[a] == '{' && content[b] == '}';
      assert i <= a && b <= j;
      assert ObjectSpan(content, i, j);
    }
    forall i', j' | ObjectSpan(content, i', j') ensures ExtractJson(content) == content[i'..j' + 1] {
      assert i' == i && j' == j;
    }
  }

  /** The extraction is greedy rather than balanced: two objects separated
      by text are taken together with the text between them. */
  lemma ExtractJsonGreedy()
    ensures ExtractJson("{a} and {b}") == "{a} and {b}"
  {
    var s := "{a} and {b}";
    assert FirstIndex(s, '{') == 0;
    assert LastIndexOf(s, '}') == 10;
  }

  // ---------------------------------------------------------------------
  // Normalising generated items

  /** One element of `parsed.recommendations`, as far as the normalisation
      reads it. `priority` is None when absent, null or not a number. */
  datatype ModelItem = ModelItem(kind: string, title: string, description: string,
                                 duration: Option<real>, priority: Option<real>)

  /** The outcome of `JSON.parse` on the extracted text and the lookup of
      its `recommendations` field: a parse error, a field that is missing or
      not an array, or the array (a null element is None: reading a field of
      it throws). */
  datatype Parsed = Unparsable | NoList | Items(items: seq<Option<ModelItem>>)

  /** The synthesised id `ai-<clock>-<index>`. */
  function AiId(now: nat, index: nat): string {
    "ai-" + NatToString(now) + "-" + NatToString(index)
  }

  lemma NoDashInDigits(s: string)
    requires AllDigits(s)
    ensures '-' !in s
  {
    assert forall i :: 0 <= i < |s| ==> s[i] != '-';
  }

  /** An id splits back at its dashes into the prefix, the clock reading and
      the index. */
  lemma AiIdFields(now: nat, index: nat)
    ensures Split(AiId(now, index), '-') == ["ai", NatToString(now), NatToString(index)]
  {
    var n, i := NatToString(now), NatToString(index);
    NoDashInDigits(n);
    NoDashInDigits(i);
    assert AiId(now, index) == "ai" + ['-'] + (n + ['-'] + i);
    SplitCons("ai", n + ['-'] + i, '-');
    SplitCons(n, i, '-');
    SplitSingle(i, '-');
  }

  /** Items at different positions get different ids, whatever the clock
      read when each was built. */
  lemma AiIdDistinct(now1: nat, i1: nat, now2: nat, i2: nat)
    requires i1 != i2
    ensures AiId(now1, i1) != AiId(now2, i2)
  {
    AiIdFields(now1, i1);
    AiIdFields(now2, i2);
    if AiId(now1, i1) == AiId(now2, i2) {
      NatToStringInjective(i1, i2);
    }
  }

  /** `rec.priority || index + 1`: 0, NaN and a missing value are falsy. */
  function PriorityOr(p: Option<real>, index: nat): real {
    if p.Some? && p.value != 0.0 then p.value else (index + 1) as real
  }

  /** The `.map` over the generated items; `clock(i)` is the value
      `Date.now()` returns while item i is built. */
  function Normalise(items: seq<ModelItem>, clock: nat -> nat): (r: seq<Recommendation>)
    ensures |r| == |items|
    ensures forall i :: 0 <= i < |items| ==>
              r[i] == Recommendation(AiId(clock(i), i), items[i].kind, items[i].title,
                                     items[i].description, items[i].duration,
                                     PriorityOr(items[i].priority, i))
  {
    seq(|items|, i requires 0 <= i < |items| =>
      Recommendation(AiId(clock(i), i), items[i].kind, items[i].title,
                     items[i].description, items[i].duration,
                     PriorityOr(items[i].priority, i)))
  }

  /** The normalised list keeps the items' order and fields, its ids are
      pairwise distinct, and an item without a usable priority is ranked by
      its position. */
  lemma NormaliseSpec(items: seq<ModelItem>, clock: nat -> nat)
    ensures var r := Normalise(items, clock);
      (forall i, j :: 0 <= i < j < |r| ==> r[i].id != r[j].id) &&
      (forall i :: 0 <= i < |r| ==> r[i].kind == items[i].kind) &&
      (forall i :: 0 <= i < |r| && (items[i].priority.None? || items[i].priority == Some(0.0)) ==>
         r[i].priority == (i + 1) as real) &&
      (forall i :: 0 <= i < |r| && items[i].priority.Some? && items[i].priority.value != 0.0 ==>
         r[i].priority == items[i].priority.value)
  {
    var r := Normalise(items, clock);
    forall i, j | 0 <= i < j < |r| ensures r[i].id != r[j].id {
      AiIdDistinct(clock(i), i, clock(j), j);
    }
  }

  /** The kind is copied without being checked: a generated item of an
      unknown kind comes out as a recommendation the schema rejects. */
  lemma KindUnchecked(clock: nat -> nat)
    ensures var r := Normalise([ModelItem("yoga", "t", "d", None, Some(1.0))], clock);
      |r| == 1 && !ValidRecommendation(r[0])
  {
  }

  // ---------------------------------------------------------------------
  // The prompt and the decision

  /** The values the prompt interpolates. */
  datatype PromptContext = PromptContext(current: string, pattern: string, minutes: int)

  /** `recentEmotions.join(", ")` and `Math.floor(sessionDuration / 60000)`
      (floor division, also for a negative duration). */
  function Prompt(current: Emotion, recent: seq<Emotion>, sessionDuration: int): (p: PromptContext)
    ensures p.minutes * 60000 <= sessionDuration < (p.minutes + 1) * 60000
  {
    PromptContext(Name(current), Join(NamesOf(recent), ", "), sessionDuration / 60000)
  }

  /** `" " + s` for each string. */
  function Spaced(ss: seq<string>): (r: seq<string>)
    ensures |r| == |ss| && forall i :: 0 <= i < |ss| ==> r[i] == " " + ss[i]
  {
    seq(|ss|, i requires 0 <= i < |ss| => " " + ss[i])
  }

  /** Splitting a `", "`-join at the commas gives the first piece and the
      rest each with its leading space. */
  lemma {:induction false} SplitCommaSpace(ns: seq<string>)
    requires |ns| >= 1 && forall k :: 0 <= k < |ns| ==> ',' !in ns[k]
    ensures Split(Join(ns, ", "), ',') == [ns[0]] + Spaced(ns[1..])
    decreases |ns|
  {
    if |ns| == 1 {
      SplitSingle(ns[0], ',');
    } else {
      var ns' := [" " + ns[1]] + ns[2..];
      JoinCommaSpace(ns);
      SplitCons(ns[0], Join(ns', ", "), ',');
      assert ',' !in " " + ns[1];
      SplitCommaSpace(ns');
      SpacedCons(ns);
    }
  }

  /** The `", "`-join of two or more pieces is the first piece, a comma,
      and the `", "`-join of the rest with a space put before its first. */
  lemma JoinCommaSpace(ns: seq<string>)
    requires |ns| >= 2
    ensures Join(ns, ", ") == ns[0] + [','] + Join([" " + ns[1]] + ns[2..], ", ")
  {
    var rest := ns[1..];
    assert rest[0] == ns[1] && rest[1..] == ns[2..];
    JoinSpaceFirst(rest);
    calc {
      Join(ns, ", ");
      ns[0] + ", " + Join(rest, ", ");
      { assert ", " == [','] + " "; }
      ns[0] + [','] + (" " + Join(rest, ", "));
    }
  }

  lemma JoinSpaceFirst(rest: seq<string>)
    requires |rest| >= 1
    ensures " " + Join(rest, ", ") == Join([" " + rest[0]] + rest[1..], ", ")
  {
    var ns' := [" " + rest[0]] + rest[1..];
    if |rest| > 1 {
      var tail := Join(rest[1..], ", ");
      assert ns'[1..] == rest[1..];
      assert Join(ns', ", ") == ns'[0] + ", " + tail;
      assert Join(rest, ", ") == rest[0] + ", " + tail;
      ConcatAssoc(" ", rest[0], ", ", tail);
    } else {
      assert Join(ns', ", ") == ns'[0];
    }
  }

  lemma ConcatAssoc<T>(a: seq<T>, b: seq<T>, c: seq<T>, d: seq<T>)
    ensures a + (b + c + d) == a + b + c + d
  {
  }

  lemma SpacedCons(ns: seq<string>)
    requires |ns| >= 2
    ensures [" " + ns[1]] + Spaced(([" " + ns[1]] + ns[2..])[1..]) == Spaced(ns[1..])
  {
    assert ([" " + ns[1]] + ns[2..])[1..] == ns[2..];
  }

  /** A string with non-blank ends is its own trim. */
  lemma TrimUntouched(s: string)
    requires s != [] && !IsSpace(s[0]) && !IsSpace(s[|s| - 1])
    ensures Trim(s) == s
  {
    assert TrimStart(s) == s;
  }

  /** One leading space is dropped from a string with non-blank ends. */
  lemma TrimLeadingSpace(n: string)
    requires n != [] && !IsSpace(n[0]) && !IsSpace(n[|n| - 1])
    ensures Trim(" " + n) == n
  {
    var s := " " + n;
    assert s[1..] == n;
    assert TrimStart(n) == n;
    assert TrimStart(s) == n;
  }

  /** A label name begins and ends with a lower-case letter. */
  lemma NameEnds(e: Emotion)
    ensures |Name(e)| >= 1
    ensures 'a' <= Name(e)[0] <= 'z' && 'a' <= Name(e)[|Name(e)| - 1] <= 'z'
  {
  }

  /** A label name is its own trim, also behind one leading space. */
  lemma TrimName(e: Emotion)
    ensures Trim(Name(e)) == Name(e) && Trim(" " + Name(e)) == Name(e)
  {
    NameEnds(e);
    TrimUntouched(Name(e));
    TrimLeadingSpace(Name(e));
  }

  /** The prompt lists the recent labels in order: split at the commas and
      trimmed, the pattern gives back their names. */
  lemma PromptPattern(current: Emotion, recent: seq<Emotion>, sessionDuration: int)
    requires |recent| >= 1
    ensures var parts := Split(Prompt(current, recent, sessionDuration).pattern, ',');
      |parts| == |recent| && forall k :: 0 <= k < |recent| ==> Trim(parts[k]) == Name(recent[k])
  {
    var ns := NamesOf(recent);
    forall k | 0 <= k < |ns| ensures ',' !in ns[k] {
      NameHasNoSeparator(recent[k]);
    }
    SplitCommaSpace(ns);
    var parts := [ns[0]] + Spaced(ns[1..]);
    forall k | 0 <= k < |recent| ensures Trim(parts[k]) == Name(recent[k]) {
      TrimName(recent[k]);
      if k > 0 {
        assert parts[k] == " " + ns[k];
      }
    }
  }

  /** True when every element of the parsed array can be read. */
  predicate AllPresent(xs: seq<Option<ModelItem>>) {
    forall i :: 0 <= i < |xs| ==> xs[i].Some?
  }

  function Present(xs: seq<Option<ModelItem>>): (r: seq<ModelItem>)
    requires AllPresent(xs)
    ensures |r| == |xs| && forall i :: 0 <= i < |xs| ==> Some(r[i]) == xs[i]
  {
    seq(|xs|, i requires 0 <= i < |xs| => xs[i].value)
  }

  /** Which list `getWellnessRecommendations` returns. */
  datatype Answer = UseFallback | Generated(recs: seq<Recommendation>)

  /** The decision of `getWellnessRecommendations`. `hasKey` is whether the
      API key was configured; `generate` is the model (None: the call
      threw); `parse` is `JSON.parse` followed by the lookup of
      `recommendations`; any failure falls back. */
  function Decide(
    current: Emotion, recent: seq<Emotion>, sessionDuration: int, hasKey: bool,
    generate: PromptContext -> Option<string>, parse: string -> Parsed, clock: nat -> nat): Answer
  {
    if !hasKey then UseFallback
    else
      var reply := generate(Prompt(current, recent, sessionDuration));
      if reply.None? || reply.value == "" then UseFallback
      else match parse(ExtractJson(reply.value))
        case Items(xs) => if AllPresent(xs) then Generated(Normalise(Present(xs), clock)) else UseFallback
        case _ => UseFallback
  }

  function GetWellnessRecommendations(
    current: Emotion, recent: seq<Emotion>, sessionDuration: int, hasKey: bool,
    generate: PromptContext -> Option<string>, parse: string -> Parsed, clock: nat -> nat): seq<Recommendation>
  {
    match Decide(current, recent, sessionDuration, hasKey, generate, parse, clock)
    case UseFallback => Fallback(current)
    case Generated(recs) => recs
  }

  /** A generated list is returned exactly when there is a key, the reply
      is non-empty and its extracted text parses to an array of readable
      items; every other outcome (no key, a thrown call, empty text, a parse
      error, a missing list, a null item) gives the fallback. The generated
      list has one entry per item. */
  lemma DecideSpec(
    current: Emotion, recent: seq<Emotion>, sessionDuration: int, hasKey: bool,
    generate: PromptContext -> Option<string>, parse: string -> Parsed, clock: nat -> nat)
    ensures var a := Decide(current, recent, sessionDuration, hasKey, generate, parse, clock);
      var reply := generate(Prompt(current, recent, sessionDuration));
      var ok := hasKey && reply.Some? && reply.value != "" &&
                parse(ExtractJson(reply.value)).Items? && AllPresent(parse(ExtractJson(reply.value)).items);
      (a.Generated? <==> ok) &&
      (ok ==> a.recs == Normalise(Present(parse(ExtractJson(reply.value)).items), clock) &&
              |a.recs| == |parse(ExtractJson(reply.value)).items|)
  {
  }

  /** Without a key the model is not consulted: the answer is the same
      whatever the model would say. */
  lemma NoKeyIgnoresModel(
    current: Emotion, recent: seq<Emotion>, sessionDuration: int,
    generate1: PromptContext -> Option<string>, generate2: PromptContext -> Option<string>,
    parse: string -> Parsed, clock: nat -> nat)
    ensures Decide(current, recent, sessionDuration, false, generate1, parse, clock) ==
            Decide(current, recent, sessionDuration, false, generate2, parse, clock) == UseFallback
  {
  }

  /** An empty generated array is returned as an empty list, not replaced
      by the fallback. */
  lemma EmptyListIsKept(current: Emotion, generate: PromptContext -> Option<string>,
                        parse: string -> Parsed, clock: nat -> nat)
    requires generate(Prompt(current, [], 0)) == Some(EmptyListReply)
    requires parse(EmptyListReply) == Items([])
    ensures Decide(current, [], 0, true, generate, parse, clock) == Generated([])
  {
    assert ExtractJson(EmptyListReply) == EmptyListReply by {
      assert FirstIndex(EmptyListReply, '{') == 0;
      LastIndexOfEmptyListReply();
    }
  }

  /** A reply whose `recommendations` array is empty. */
  const EmptyListReply: string := "{\"recommendations\":[]}"

  lemma LastIndexOfEmptyListReply()
    ensures LastIndexOf(EmptyListReply, '}') == |EmptyListReply| - 1
  {
  }

  // ---------------------------------------------------------------------
  // The companion message

  const NoKeyMessage: string :=
    "Your AI companion is currently sleeping because no Gemini API key is configured. " +
    "Add an API key to unlock personalized emotional support."

  /** The error message, ending in the four characters the source file
      holds where an emoji was meant. */
  const TroubleMessage: string :=
    "I'm having a little trouble thinking right now, but remember: slowing down, " +
    "breathing deeply, and being kind to yourself is always a good next step. " +
    "\U{F0}\U{178}\U{2019}\U{2013}"

  /** Which message `getCompanionMessage` returns. */
  datatype CompanionReply = Sleeping | Trouble | Spoken(text: string)

  /** `reply` is the model's text for the user's description, None when
      the call threw. */
  function CompanionOutcome(hasKey: bool, reply: Option<string>): CompanionReply {
    if !hasKey then Sleeping
    else if reply.None? || reply.value == "" then Trouble
    else Spoken(Trim(reply.value))
  }

  /** `getCompanionMessage`. */
  function CompanionMessage(hasKey: bool, reply: Option<string>): string {
    match CompanionOutcome(hasKey, reply)
    case Sleeping => NoKeyMessage
    case Trouble => TroubleMessage
    case Spoken(text) => text
  }

  /** The fixed message without a key, the fixed error message when the
      call threw or gave empty text, and the model's own words otherwise. */
  lemma CompanionOutcomeSpec(hasKey: bool, reply: Option<string>)
    ensures var o := CompanionOutcome(hasKey, reply);
      (o == Sleeping <==> !hasKey) &&
      (o == Trouble <==> hasKey && (reply.None? || reply.value == [])) &&
      (o.Spoken? <==> hasKey && reply.Some? && reply.value != [])
  {
  }

  /** The spoken answer is the reply trimmed: it has no surrounding white
      space, is no longer than the reply, and is empty exactly when the
      model answered with nothing but white space. */
  lemma CompanionSpokenSpec(s: string)
    requires s != []
    ensures var o := CompanionOutcome(true, Some(s));
      o.Spoken? && Trim(o.text) == o.text && |o.text| <= |s| &&
      (o.text == [] <==> forall i :: 0 <= i < |s| ==> IsSpace(s[i]))
  {
    TrimIdempotent(s);
    TrimBlank(s);
  }

  /** A string trims to nothing exactly when it is all white space. */
  lemma TrimBlank(s: string)
    ensures Trim(s) == [] <==> forall i :: 0 <= i < |s| ==> IsSpace(s[i])
  {
    var r := Trim(s);
    var a := |s| - |TrimStart(s)|;
    if r == [] {
      forall i | 0 <= i < |s| ensures IsSpace(s[i]) {
      }
    } else {
      assert r[0] == s[a];
    }
  }
}
