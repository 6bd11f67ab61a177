/** The server's in-memory store: one JavaScript Map from session id to
    session and one from session id to that session's entries. A Map
    remembers the order in which its keys were first set, and `values()`
    walks them in that order, so each Map is modelled as a `map` together
    with its key order. */
module Storage {
  import opened Util
  import opened Schema

  /** The key order after `Map.set(k, ...)`: a new key goes last, a key
      already present keeps its place. */
  function SetKey(order: seq<string>, k: string): (r: seq<string>)
    ensures forall x :: x in r <==> x in order || x == k
    ensures |order| <= |r| && r[..|order|] == order
    ensures Distinct(order) ==> Distinct(r)
    ensures k in order ==> r == order
  {
    if k in order then order else order + [k]
  }

  /** Setting a key keeps a key order that lists its Map's keys, each
      once. */
  lemma SetKeyListsKeys<V>(order: seq<string>, m: map<string, V>, k: string, v: V)
    requires Distinct(order) && forall x :: x in m <==> x in order
    ensures Distinct(SetKey(order, k)) && forall x :: x in m[k := v] <==> x in SetKey(order, k)
  {
  }

  /** `emotions.get(k) || []`: an absent key reads as an empty list (a stored
      empty array is truthy and is returned as it is). */
  function Lookup(m: map<string, seq<EmotionEntry>>, k: string): seq<EmotionEntry> {
    if k in m then m[k] else []
  }

  /** Appending to one session's list leaves every other session's list as
      it was, and the session's own list gains exactly the new entry at its
      end. */
  lemma LookupAfterAppend(m: map<string, seq<EmotionEntry>>, k: string, x: EmotionEntry, k': string)
    ensures Lookup(m[k := Lookup(m, k) + [x]], k') ==
            (if k' == k then Lookup(m, k) + [x] else Lookup(m, k'))
  {
  }

  /** Every stored entry, list by list in key order: the loop in
      `getRecentEmotions` that pushes each Map value onto one array. */
  function AllEntries(order: seq<string>, m: map<string, seq<EmotionEntry>>): seq<EmotionEntry> {
    if order == [] then [] else AllEntries(order[..|order| - 1], m) + Lookup(m, order[|order| - 1])
  }

  /** A key outside the order does not contribute to AllEntries. */
  lemma {:induction false} AllEntriesIgnores(order: seq<string>, m: map<string, seq<EmotionEntry>>,
                                             k: string, v: seq<EmotionEntry>)
    requires k !in order
    ensures AllEntries(order, m[k := v]) == AllEntries(order, m)
  {
    if order != [] {
      AllEntriesIgnores(order[..|order| - 1], m, k, v);
    }
  }

  /** Appending to a listed session adds exactly that entry to the store. */
  lemma {:induction false} AllEntriesAppendListed(order: seq<string>, m: map<string, seq<EmotionEntry>>,
                                                  k: string, x: EmotionEntry)
    requires Distinct(order) && k in order
    ensures multiset(AllEntries(order, m[k := Lookup(m, k) + [x]])) ==
            multiset(AllEntries(order, m)) + multiset{x}
  {
    var m' := m[k := Lookup(m, k) + [x]];
    var init, last := order[..|order| - 1], order[|order| - 1];
    assert order == init + [last];
    if last == k {
      assert k !in init;
      AllEntriesIgnores(init, m, k, Lookup(m, k) + [x]);
    } else {
      assert k in init;
      AllEntriesAppendListed(init, m, k, x);
    }
  }

  /** `createEmotionEntry`'s effect on the whole store: whether the session
      is new or not, the store gains exactly the new entry. */
  lemma AllEntriesAfterAppend(order: seq<string>, m: map<string, seq<EmotionEntry>>,
                              k: string, x: EmotionEntry)
    requires Distinct(order) && (k !in order ==> k !in m)
    ensures multiset(AllEntries(SetKey(order, k), m[k := Lookup(m, k) + [x]])) ==
            multiset(AllEntries(order, m)) + multiset{x}
  {
    if k in order {
      AllEntriesAppendListed(order, m, k, x);
    } else {
      var order' := order + [k];
      assert SetKey(order, k) == order';
      assert Lookup(m, k) + [x] == [x];
      assert order'[..|order'| - 1] == order;
      AllEntriesIgnores(order, m, k, [x]);
      assert AllEntries(order', m[k := [x]]) == AllEntries(order, m) + [x];
    }
  }

  /** `Array.from(sessions.values())`: the stored sessions in key order. */
  function ValuesInOrder(order: seq<string>, m: map<string, MoodSession>): (r: seq<MoodSession>)
    requires forall i :: 0 <= i < |order| ==> order[i] in m
    ensures |r| == |order|
    ensures forall i :: 0 <= i < |order| ==> r[i] == m[order[i]]
  {
    if order == [] then [] else ValuesInOrder(order[..|order| - 1], m) + [m[order[|order| - 1]]]
  }

  // ---------------------------------------------------------------------
  // Session updates: `{...session, ...updates}`

  /** A `Partial<MoodSession>`: None is a key the update object does not
      have. For the optional fields, `Some(None)` is a key present with the
      value `undefined`, which the spread copies over the stored value. */
  datatype SessionPatch = SessionPatch(
    id: Option<string>,
    startTime: Option<int>,
    endTime: Option<Option<int>>,
    emotions: Option<seq<EmotionEntry>>,
    dominantEmotion: Option<Option<Emotion>>,
    averageConfidence: Option<Option<real>>)

  const EmptyPatch: SessionPatch := SessionPatch(None, None, None, None, None, None)

  function Override<T>(old_: T, p: Option<T>): T {
    if p.Some? then p.value else old_
  }

  /** The object spread: each key of the patch wins over the stored one. */
  function Merge(s: MoodSession, p: SessionPatch): MoodSession {
    MoodSession(
      Override(s.id, p.id),
      Override(s.startTime, p.startTime),
      Override(s.endTime, p.endTime),
      Override(s.emotions, p.emotions),
      Override(s.dominantEmotion, p.dominantEmotion),
      Override(s.averageConfidence, p.averageConfidence))
  }

  function OverrideBoth<T>(p: Option<T>, q: Option<T>): Option<T> {
    if q.Some? then q else p
  }

  /** `{...p, ...q}` on two patches. */
  function Then(p: SessionPatch, q: SessionPatch): SessionPatch {
    SessionPatch(
      OverrideBoth(p.id, q.id),
      OverrideBoth(p.startTime, q.startTime),
      OverrideBoth(p.endTime, q.endTime),
      OverrideBoth(p.emotions, q.emotions),
      OverrideBoth(p.dominantEmotion, q.dominantEmotion),
      OverrideBoth(p.averageConfidence, q.averageConfidence))
  }

  /** An empty update changes nothing; a field the patch carries ends up
      with the patch's value, a field it lacks keeps the stored one. */
  lemma MergeSpec(s: MoodSession, p: SessionPatch)
    ensures Merge(s, EmptyPatch) == s
    ensures (p.startTime.Some? ==> Merge(s, p).startTime == p.startTime.value) &&
            (p.startTime.None? ==> Merge(s, p).startTime == s.startTime)
    ensures (p.endTime.Some? ==> Merge(s, p).endTime == p.endTime.value) &&
            (p.endTime.None? ==> Merge(s, p).endTime == s.endTime)
    ensures (p.id.Some? ==> Merge(s, p).id == p.id.value) &&
            (p.id.None? ==> Merge(s, p).id == s.id)
    ensures (p.emotions.Some? ==> Merge(s, p).emotions == p.emotions.value) &&
            (p.emotions.None? ==> Merge(s, p).emotions == s.emotions)
    ensures (p.dominantEmotion.Some? ==> Merge(s, p).dominantEmotion == p.dominantEmotion.value) &&
            (p.dominantEmotion.None? ==> Merge(s, p).dominantEmotion == s.dominantEmotion)
    ensures (p.averageConfidence.Some? ==> Merge(s, p).averageConfidence == p.averageConfidence.value) &&
            (p.averageConfidence.None? ==> Merge(s, p).averageConfidence == s.averageConfidence)
    ensures p == EmptyPatch ==> Merge(s, p) == s
  {
  }

  /** Applying the same update twice is applying it once. */
  lemma MergeIdempotent(s: MoodSession, p: SessionPatch)
    ensures Merge(Merge(s, p), p) == Merge(s, p)
  {
  }

  /** Two successive updates are one update with the combined patch. */
  lemma MergeThen(s: MoodSession, p: SessionPatch, q: SessionPatch)
    ensures Merge(Merge(s, p), q) == Merge(s, Then(p, q))
  {
  }

  // ---------------------------------------------------------------------
  // Recent entries: newest first, then `slice(0, limit)`

  /** The sort key of `(a, b) => b.timestamp - a.timestamp`: ascending in
      the negated timestamp is descending in the timestamp, ties in arrival
      order. */
  function Newness(e: EmotionEntry): int { -e.timestamp }

  /** `s.slice(0, end)`: a negative end counts from the back, clamped at 0. */
  function SliceTo<T>(s: seq<T>, end: int): (r: seq<T>)
    ensures end >= 0 ==> |r| == Min(end, |s|)
    ensures end < 0 ==> |r| == (if |s| + end > 0 then |s| + end else 0)
    ensures s == r + s[|r|..]
  {
    if end >= |s| then s
    else if end >= 0 then s[..end]
    else if |s| + end > 0 then s[..|s| + end]
    else []
  }

  function RecentEmotions(all: seq<EmotionEntry>, limit: int): seq<EmotionEntry> {
    SliceTo(SortBy(all, Newness), limit)
  }

  /** The result is newest first, holds `limit` entries (or all of them),
      is drawn from the store, and no entry left out is newer than any
      entry returned. */
  lemma RecentEmotionsSpec(all: seq<EmotionEntry>, limit: int)
    ensures var r := RecentEmotions(all, limit);
      (limit >= 0 ==> |r| == Min(limit, |all|)) &&
      (forall i, j :: 0 <= i < j < |r| ==> r[i].timestamp >= r[j].timestamp) &&
      multiset(r) <= multiset(all) &&
      (forall x, y :: x in multiset(all) - multiset(r) && y in r ==> x.timestamp <= y.timestamp)
  {
    var sorted := SortBy(all, Newness);
    var r := SliceTo(sorted, limit);
    var rest := sorted[|r|..];
    assert sorted == r + rest;
    NewestFirst(sorted, r, rest);
    LeftOutNotNewer(sorted, r, rest);
  }

  lemma NewestFirst(sorted: seq<EmotionEntry>, r: seq<EmotionEntry>, rest: seq<EmotionEntry>)
    requires SortedBy(sorted, Newness) && sorted == r + rest
    ensures forall i, j :: 0 <= i < j < |r| ==> r[i].timestamp >= r[j].timestamp
  {
    forall i, j | 0 <= i < j < |r| ensures r[i].timestamp >= r[j].timestamp {
      assert r[i] == sorted[i] && r[j] == sorted[j];
      assert Newness(sorted[i]) <= Newness(sorted[j]);
    }
  }

  lemma LeftOutNotNewer(sorted: seq<EmotionEntry>, r: seq<EmotionEntry>, rest: seq<EmotionEntry>)
    requires SortedBy(sorted, Newness) && sorted == r + rest
    ensures multiset(r) <= multiset(sorted)
    ensures forall x, y :: x in multiset(sorted) - multiset(r) && y in r ==> x.timestamp <= y.timestamp
  {
    assert multiset(sorted) == multiset(r) + multiset(rest);
    forall x, y | x in multiset(sorted) - multiset(r) && y in r ensures x.timestamp <= y.timestamp {
      assert x in multiset(rest);
      var j :| 0 <= j < |rest| && rest[j] == x;
      var i :| 0 <= i < |r| && r[i] == y;
      assert sorted[i] == y && sorted[|r| + j] == x;
      assert Newness(sorted[i]) <= Newness(sorted[|r| + j]);
    }
  }

  // ---------------------------------------------------------------------
  // The store

  class MemStorage {
    /** The sessions Map: its key order and its contents. */
    var sessionOrder: seq<string>
    var sessions: map<string, MoodSession>
    /** The entries Map: its key order and each session's list. */
    var entryOrder: seq<string>
    var entries: map<string, seq<EmotionEntry>>

    /** Each key order lists its Map's keys, each once. */
    ghost predicate Valid()
      reads this
    {
      Distinct(sessionOrder) && (forall k :: k in sessions <==> k in sessionOrder) &&
      Distinct(entryOrder) && (forall k :: k in entries <==> k in entryOrder)
    }

    constructor()
      ensures Valid()
      ensures sessionOrder == [] && sessions == map[] && entryOrder == [] && entries == map[]
    {
      sessionOrder, sessions := [], map[];
      entryOrder, entries := [], map[];
    }

    /** `createEmotionEntry`: the id is the caller's fresh UUID; the entry is
        appended to its session's list, which is created when absent. */
    method CreateEmotionEntry(sessionId: string, emotion: InsertEmotion, id: string)
      returns (entry: EmotionEntry)
      requires Valid()
      modifies this
      ensures Valid()
      ensures entry == WithId(emotion, id)
      ensures entries == old(entries)[sessionId := Lookup(old(entries), sessionId) + [entry]]
      ensures entryOrder == SetKey(old(entryOrder), sessionId)
      ensures multiset(AllEntries(entryOrder, entries)) ==
              multiset(AllEntries(old(entryOrder), old(entries))) + multiset{entry}
      ensures sessions == old(sessions) && sessionOrder == old(sessionOrder)
    {
      entry := WithId(emotion, id);
      var list := Lookup(entries, sessionId);
      AllEntriesAfterAppend(entryOrder, entries, sessionId, entry);
      SetKeyListsKeys(entryOrder, entries, sessionId, list + [entry]);
      entries := entries[sessionId := list + [entry]];
      entryOrder := SetKey(entryOrder, sessionId);
    }

    /** `getEmotionsBySession`. */
    function GetEmotionsBySession(sessionId: string): (r: seq<EmotionEntry>)
      reads this
      ensures sessionId !in entries ==> r == []
      ensures sessionId in entries ==> r == entries[sessionId]
    {
      Lookup(entries, sessionId)
    }

    /** `createSession`: a fresh session started at `now` (the caller's
        clock), replacing any session stored under the same id. The entries
        Map is not touched. */
    method CreateSession(id: string, now: int) returns (session: MoodSession)
      requires Valid()
      modifies this
      ensures Valid()
      ensures session == MoodSession(id, now, None, [], None, None)
      ensures sessions == old(sessions)[id := session]
      ensures sessionOrder == SetKey(old(sessionOrder), id)
      ensures entries == old(entries) && entryOrder == old(entryOrder)
    {
      session := MoodSession(id, now, None, [], None, None);
      SetKeyListsKeys(sessionOrder, sessions, id, session);
      sessions := sessions[id := session];
      sessionOrder := SetKey(sessionOrder, id);
    }

    /** `getSession`. */
    function GetSession(id: string): (r: Option<MoodSession>)
      reads this
      ensures r.Some? <==> id in sessions
      ensures r.Some? ==> r.value == sessions[id]
    {
      if id in sessions then Some(sessions[id]) else None
    }

    /** `updateSession`: an unknown id changes nothing and yields None;
        otherwise the stored session is replaced by the spread. */
    method UpdateSession(id: string, updates: SessionPatch) returns (r: Option<MoodSession>)
      requires Valid()
      modifies this
      ensures Valid()
      ensures id !in old(sessions) ==> r.None? && sessions == old(sessions)
      ensures id in old(sessions) ==>
                r == Some(Merge(old(sessions)[id], updates)) && sessions == old(sessions)[id := r.value]
      ensures sessionOrder == old(sessionOrder)
      ensures entries == old(entries) && entryOrder == old(entryOrder)
    {
      if id !in sessions {
        return None;
      }
      var updated := Merge(sessions[id], updates);
      sessions := sessions[id := updated];
      r := Some(updated);
    }

    /** `getAllSessions`: every stored session once, in key order. */
    function GetAllSessions(): (r: seq<MoodSession>)
      requires Valid()
      reads this
      ensures |r| == |sessionOrder|
      ensures forall i :: 0 <= i < |r| ==> r[i] == sessions[sessionOrder[i]]
      ensures forall k :: k in sessions ==> sessions[k] in r
    {
      var r := ValuesInOrder(sessionOrder, sessions);
      assert forall k :: k in sessions ==> sessions[k] in r by {
        forall k | k in sessions ensures sessions[k] in r {
          var i :| 0 <= i < |sessionOrder| && sessionOrder[i] == k;
          assert r[i] == sessions[k];
        }
      }
      r
    }

    /** `getRecentEmotions`: gather every list in key order, sort newest
        first and keep the first `limit`. */
    method GetRecentEmotions(limit: int) returns (r: seq<EmotionEntry>)
      requires Valid()
      ensures r == RecentEmotions(AllEntries(entryOrder, entries), limit)
    {
      var all: seq<EmotionEntry> := [];
      for i := 0 to |entryOrder|
        invariant all == AllEntries(entryOrder[..i], entries)
      {
        assert entryOrder[..i + 1][..i] == entryOrder[..i];
        all := all + entries[entryOrder[i]];
      }
      assert entryOrder[..|entryOrder|] == entryOrder;
      var sorted := SortBy(all, Newness);
      r := SliceTo(sorted, limit);
    }
  }
}
