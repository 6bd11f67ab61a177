/** The mood-history view: the emotion stream folded into episodes (runs of
    one label without a pause longer than the gap tolerance), the recent
    "emotion flow" and the episode-length formatter. */
module History {
  import opened Util
  import opened Text
  import opened Schema

  /** A pause longer than this (in ms) after an episode's end starts a new
      episode even when the label is unchanged; a pause of exactly this
      length still merges. */
  const GapToleranceMs: int := 5000

  /** One coalesced episode, as shown in the history list. */
  datatype Episode = Episode(
    id: string, startTime: int, endTime: int, emotion: Emotion, count: nat, avgConfidence: real)

  function Timestamp(e: EmotionEntry): int { e.timestamp }

  /** `[...emotions].sort((a, b) => a.timestamp - b.timestamp)`: a stable
      ascending sort of a copy; the caller's sequence is a value and stays as
      it was. */
  function SortByTimestamp(s: seq<EmotionEntry>): (r: seq<EmotionEntry>)
    ensures SortedBy(r, Timestamp) && multiset(r) == multiset(s)
  {
    SortBy(s, Timestamp)
  }

  /** The condition under which a sample does not extend the open episode. */
  predicate Boundary(open: Episode, e: EmotionEntry) {
    open.emotion != e.emotion || e.timestamp - open.endTime > GapToleranceMs
  }

  function Seed(e: EmotionEntry): Episode {
    Episode(e.id, e.timestamp, e.timestamp, e.emotion, 1, e.confidence)
  }

  /** The source's in-place update of the open episode: the end moves to
      the sample, the count goes up and the average absorbs the sample. */
  function Extend(open: Episode, e: EmotionEntry): Episode {
    open.(endTime := e.timestamp, count := open.count + 1,
          avgConfidence := MeanStep(open.avgConfidence, open.count, e.confidence))
  }

  /** `(avg * (count - 1) + x) / count` with `count` already incremented,
      written here with n, the count before the increment. */
  function MeanStep(avg: real, n: nat, x: real): real {
    (avg * n as real + x) / (n + 1) as real
  }

  /** One step of the fold over a list whose last element is the open episode. */
  function Step(eps: seq<Episode>, e: EmotionEntry): seq<Episode> {
    if eps == [] || Boundary(eps[|eps| - 1], e) then eps + [Seed(e)]
    else eps[..|eps| - 1] + [Extend(eps[|eps| - 1], e)]
  }

  /** The episodes of a sample sequence, oldest first. */
  function Chronicle(s: seq<EmotionEntry>): seq<Episode> {
    if s == [] then [] else Step(Chronicle(s[..|s| - 1]), s[|s| - 1])
  }

  lemma ChronicleUnfold(s: seq<EmotionEntry>, i: nat)
    requires i < |s|
    ensures Chronicle(s[..i + 1]) == Step(Chronicle(s[..i]), s[i])
  {
    assert s[..i + 1][..i] == s[..i];
  }

  /** What `timelineEntries` evaluates to: the episodes of the sorted
      samples, newest first. */
  function Timeline(emotions: seq<EmotionEntry>): seq<Episode> {
    if |emotions| == 0 then [] else Reverse(Chronicle(SortByTimestamp(emotions)))
  }

  /** The `timelineEntries` computation: sort a copy, walk it with an open
      episode that is either extended in place or pushed and replaced, push
      the last one, reverse. */
  method SegmentTimeline(emotions: seq<EmotionEntry>) returns (timeline: seq<Episode>)
    ensures timeline == Timeline(emotions)
  {
    if |emotions| == 0 {
      return [];
    }
    var entries: seq<Episode> := [];
    var current: Option<Episode> := None;
    var sorted := SortByTimestamp(emotions);
    for i := 0 to |sorted|
      invariant current.Some? <==> i > 0
      invariant Closed(entries, current) == Chronicle(sorted[..i])
    {
      var emotion := sorted[i];
      ChronicleUnfold(sorted, i);
      if current.None? || Boundary(current.value, emotion) {
        if current.Some? {
          entries := entries + [current.value];
        }
        current := Some(Seed(emotion));
      } else {
        ghost var before := entries + [current.value];
        assert before[..|before| - 1] == entries;
        current := Some(Extend(current.value, emotion));
      }
    }
    if current.Some? {
      entries := entries + [current.value];
    }
    assert sorted[..|sorted|] == sorted;
    timeline := Reverse(entries);
  }

  /** The closed episodes followed by the open one, if any. */
  function Closed(entries: seq<Episode>, current: Option<Episode>): seq<Episode> {
    if current.Some? then entries + [current.value] else entries
  }

  // ---------------------------------------------------------------------
  // Reference description: maximal runs of samples

  /** Two consecutive samples belong to different runs when the label
      changes or the second comes more than the tolerance after the first. */
  predicate Breaks(prev: EmotionEntry, next: EmotionEntry) {
    prev.emotion != next.emotion || next.timestamp - prev.timestamp > GapToleranceMs
  }

  /** A run: non-empty, and no break between consecutive samples. */
  predicate IsRun(b: seq<EmotionEntry>) {
    |b| >= 1 && forall i :: 0 < i < |b| ==> !Breaks(b[i - 1], b[i])
  }

  /** Two runs meet at a break. */
  predicate Separated(a: seq<EmotionEntry>, b: seq<EmotionEntry>) {
    |a| >= 1 && |b| >= 1 && Breaks(a[|a| - 1], b[0])
  }

  /** The samples cut at every break, in order. */
  function Runs(s: seq<EmotionEntry>): seq<seq<EmotionEntry>> {
    if s == [] then []
    else
      var init, e := s[..|s| - 1], s[|s| - 1];
      var rs := Runs(init);
      if init == [] || rs == [] || Breaks(init[|init| - 1], e) then rs + [[e]]
      else rs[..|rs| - 1] + [rs[|rs| - 1] + [e]]
  }

  /** Every piece is a run, and the last piece ends with the last sample. */
  lemma {:induction false} RunsAreRuns(s: seq<EmotionEntry>)
    ensures forall k :: 0 <= k < |Runs(s)| ==> IsRun(Runs(s)[k])
    ensures s != [] <==> Runs(s) != []
    ensures s != [] ==> var last := Runs(s)[|Runs(s)| - 1]; last[|last| - 1] == s[|s| - 1]
  {
    if s != [] {
      var init, e := s[..|s| - 1], s[|s| - 1];
      var rs := Runs(init);
      RunsAreRuns(init);
      if init == [] || rs == [] || Breaks(init[|init| - 1], e) {
        var r := rs + [[e]];
        assert Runs(s) == r;
        assert forall k :: 0 <= k < |rs| ==> r[k] == rs[k];
      } else {
        var last := rs[|rs| - 1];
        var r := rs[..|rs| - 1] + [last + [e]];
        assert Runs(s) == r;
        assert forall k :: 0 <= k < |rs| - 1 ==> r[k] == rs[k];
        RunExtends(last, e);
      }
    }
  }

  lemma RunExtends(b: seq<EmotionEntry>, e: EmotionEntry)
    requires IsRun(b) && !Breaks(b[|b| - 1], e)
    ensures IsRun(b + [e])
  {
    var b' := b + [e];
    forall i | 0 < i < |b'| ensures !Breaks(b'[i - 1], b'[i]) {
      if i < |b| {
        assert b'[i - 1] == b[i - 1] && b'[i] == b[i];
      }
    }
  }

  /** Concatenated, the runs give the samples back. */
  lemma {:induction false} RunsFlatten(s: seq<EmotionEntry>)
    ensures Flatten(Runs(s)) == s
  {
    if s != [] {
      var init, e := s[..|s| - 1], s[|s| - 1];
      var rs := Runs(init);
      RunsFlatten(init);
      assert s == init + [e];
      if init == [] || rs == [] || Breaks(init[|init| - 1], e) {
        var r := rs + [[e]];
        assert r[..|r| - 1] == rs;
      } else {
        var front, last := rs[..|rs| - 1], rs[|rs| - 1];
        var r := front + [last + [e]];
        assert r[..|r| - 1] == front;
        assert rs == front + [last];
        assert Flatten(rs) == Flatten(front) + last;
      }
    }
  }

  /** Consecutive runs meet at a break: the runs are maximal. */
  lemma {:induction false} RunsMaximal(s: seq<EmotionEntry>)
    ensures forall k :: 0 < k < |Runs(s)| ==> Separated(Runs(s)[k - 1], Runs(s)[k])
  {
    if s != [] {
      var init, e := s[..|s| - 1], s[|s| - 1];
      var rs := Runs(init);
      RunsMaximal(init);
      RunsAreRuns(init);
      if init == [] || rs == [] || Breaks(init[|init| - 1], e) {
        var r := rs + [[e]];
        assert Runs(s) == r;
        forall k | 0 < k < |r| ensures Separated(r[k - 1], r[k]) {
          if k < |rs| {
            assert r[k - 1] == rs[k - 1] && r[k] == rs[k];
          } else {
            assert IsRun(rs[k - 1]);
          }
        }
      } else {
        var last := rs[|rs| - 1];
        var r := rs[..|rs| - 1] + [last + [e]];
        assert Runs(s) == r;
        forall k | 0 < k < |r| ensures Separated(r[k - 1], r[k]) {
          assert r[k - 1] == rs[k - 1];
          if k < |r| - 1 {
            assert r[k] == rs[k];
          } else {
            assert Separated(rs[k - 1], rs[k]);
            assert r[k][0] == rs[k][0];
          }
        }
      }
    }
  }

  /** The episode a run is summarised as: first id and label, first and last
      timestamps, size and mean confidence. */
  function Summary(b: seq<EmotionEntry>): Episode
    requires |b| >= 1
  {
    Episode(b[0].id, b[0].timestamp, b[|b| - 1].timestamp, b[0].emotion, |b|,
            SumConfidence(b) / |b| as real)
  }

  predicate NonEmptyPieces(rs: seq<seq<EmotionEntry>>) {
    forall k :: 0 <= k < |rs| ==> |rs[k]| >= 1
  }

  /** The summary of each run, in order. */
  function Summaries(rs: seq<seq<EmotionEntry>>): (r: seq<Episode>)
    requires NonEmptyPieces(rs)
    ensures |r| == |rs| && forall k :: 0 <= k < |rs| ==> r[k] == Summary(rs[k])
  {
    if rs == [] then [] else Summaries(rs[..|rs| - 1]) + [Summary(rs[|rs| - 1])]
  }

  /** The fold computes exactly the summaries of the maximal runs: in
      particular each running average is the exact mean of its run. */
  lemma {:induction false} ChronicleIsSummaries(s: seq<EmotionEntry>)
    ensures NonEmptyPieces(Runs(s))
    ensures Chronicle(s) == Summaries(Runs(s))
  {
    if s != [] {
      ChronicleIsSummaries(s[..|s| - 1]);
      SummariesStep(s);
    }
  }

  /** Adding the last sample to the runs and a step of the fold agree. */
  lemma SummariesStep(s: seq<EmotionEntry>)
    requires s != []
    requires NonEmptyPieces(Runs(s[..|s| - 1]))
    ensures NonEmptyPieces(Runs(s))
    ensures Step(Summaries(Runs(s[..|s| - 1])), s[|s| - 1]) == Summaries(Runs(s))
  {
    if Cut(s[..|s| - 1], s[|s| - 1]) {
      SummariesStepCut(s);
    } else {
      SummariesStepMerge(s);
    }
  }

  /** The sample e after init starts a run of its own. */
  predicate Cut(init: seq<EmotionEntry>, e: EmotionEntry) {
    init == [] || Runs(init) == [] || Breaks(init[|init| - 1], e)
  }

  lemma SummariesStepCut(s: seq<EmotionEntry>)
    requires s != [] && Cut(s[..|s| - 1], s[|s| - 1])
    requires NonEmptyPieces(Runs(s[..|s| - 1]))
    ensures NonEmptyPieces(Runs(s))
    ensures Step(Summaries(Runs(s[..|s| - 1])), s[|s| - 1]) == Summaries(Runs(s))
  {
    var init, e := s[..|s| - 1], s[|s| - 1];
    CutIsBoundary(init, e);
    assert Runs(s) == Runs(init) + [[e]];
    StepCut(Runs(init), e);
  }

  lemma SummariesStepMerge(s: seq<EmotionEntry>)
    requires s != [] && !Cut(s[..|s| - 1], s[|s| - 1])
    requires NonEmptyPieces(Runs(s[..|s| - 1]))
    ensures NonEmptyPieces(Runs(s))
    ensures Step(Summaries(Runs(s[..|s| - 1])), s[|s| - 1]) == Summaries(Runs(s))
  {
    var init, e := s[..|s| - 1], s[|s| - 1];
    var rs := Runs(init);
    CutIsBoundary(init, e);
    assert Runs(s) == rs[..|rs| - 1] + [rs[|rs| - 1] + [e]];
    StepMerge(rs, e);
  }

  lemma StepCut(rs: seq<seq<EmotionEntry>>, e: EmotionEntry)
    requires NonEmptyPieces(rs)
    requires var c := Summaries(rs); c == [] || Boundary(c[|c| - 1], e)
    ensures NonEmptyPieces(rs + [[e]])
    ensures Step(Summaries(rs), e) == Summaries(rs + [[e]])
  {
    SummariesNewRun(rs, e);
  }

  lemma StepMerge(rs: seq<seq<EmotionEntry>>, e: EmotionEntry)
    requires rs != [] && NonEmptyPieces(rs)
    requires var c := Summaries(rs); !Boundary(c[|c| - 1], e)
    ensures var r := rs[..|rs| - 1] + [rs[|rs| - 1] + [e]];
      NonEmptyPieces(r) && Step(Summaries(rs), e) == Summaries(r)
  {
    SummariesExtendRun(rs, e);
  }

  /** Where the runs are cut is where the fold closes an episode. */
  lemma CutIsBoundary(init: seq<EmotionEntry>, e: EmotionEntry)
    requires NonEmptyPieces(Runs(init))
    ensures var c := Summaries(Runs(init)); Cut(init, e) <==> (c == [] || Boundary(c[|c| - 1], e))
  {
    RunsAreRuns(init);
    var rs := Runs(init);
    if rs != [] {
      SummaryLast(rs);
    }
  }

  /** The last summary has the last run's label and ends at its last sample. */
  lemma SummaryLast(rs: seq<seq<EmotionEntry>>)
    requires rs != [] && NonEmptyPieces(rs) && IsRun(rs[|rs| - 1])
    ensures var c, last := Summaries(rs), rs[|rs| - 1];
      c != [] && c[|c| - 1].emotion == last[|last| - 1].emotion &&
      c[|c| - 1].endTime == last[|last| - 1].timestamp
  {
    RunLabel(rs[|rs| - 1]);
  }

  lemma SummariesNewRun(rs: seq<seq<EmotionEntry>>, e: EmotionEntry)
    requires NonEmptyPieces(rs)
    ensures NonEmptyPieces(rs + [[e]])
    ensures Summaries(rs + [[e]]) == Summaries(rs) + [Seed(e)]
  {
    var r := rs + [[e]];
    assert r[..|r| - 1] == rs;
    assert SumConfidence([e]) == e.confidence by {
      assert [e][..0] == [];
    }
  }

  lemma SummariesExtendRun(rs: seq<seq<EmotionEntry>>, e: EmotionEntry)
    requires rs != [] && NonEmptyPieces(rs)
    ensures var r := rs[..|rs| - 1] + [rs[|rs| - 1] + [e]];
      NonEmptyPieces(r) &&
      Summaries(r) == Summaries(rs)[..|rs| - 1] + [Extend(Summaries(rs)[|rs| - 1], e)]
  {
    var front, last := rs[..|rs| - 1], rs[|rs| - 1];
    var r := front + [last + [e]];
    assert r[..|r| - 1] == front;
    assert rs[..|rs| - 1] == front;
    ExtendSummary(last, e);
  }

  lemma RunLabel(b: seq<EmotionEntry>)
    requires IsRun(b)
    ensures forall i :: 0 <= i < |b| ==> b[i].emotion == b[0].emotion
  {
    var i := 1;
    while i < |b|
      invariant 1 <= i <= |b|
      invariant forall j :: 0 <= j < i ==> b[j].emotion == b[0].emotion
    {
      assert !Breaks(b[i - 1], b[i]);
      i := i + 1;
    }
  }

  /** Extending an episode by one sample is summarising the longer run. */
  lemma ExtendSummary(b: seq<EmotionEntry>, e: EmotionEntry)
    requires |b| >= 1
    ensures Extend(Summary(b), e) == Summary(b + [e])
  {
    var b' := b + [e];
    assert b'[..|b'| - 1] == b;
    MeanStepOfSum(SumConfidence(b), |b|, e.confidence);
  }

  /** The running-average update applied to the mean of n values gives the
      mean of the n + 1 values. */
  lemma MeanStepOfSum(sum: real, n: nat, x: real)
    requires n >= 1
    ensures MeanStep(sum / n as real, n, x) == (sum + x) / (n + 1) as real
  {
    var d := n as real;
    assert (sum / d) * d == sum;
  }

  // ---------------------------------------------------------------------
  // Consequences for the episodes

  function SumCounts(eps: seq<Episode>): nat {
    if eps == [] then 0 else SumCounts(eps[..|eps| - 1]) + eps[|eps| - 1].count
  }

  lemma {:induction false} SumCountsCons(x: Episode, eps: seq<Episode>)
    ensures SumCounts([x] + eps) == x.count + SumCounts(eps)
  {
    if eps != [] {
      assert ([x] + eps)[..|eps|] == [x] + eps[..|eps| - 1];
      SumCountsCons(x, eps[..|eps| - 1]);
    }
  }

  lemma {:induction false} SumCountsReverse(eps: seq<Episode>)
    ensures SumCounts(Reverse(eps)) == SumCounts(eps)
  {
    if eps != [] {
      var init, last := eps[..|eps| - 1], eps[|eps| - 1];
      SumCountsReverse(init);
      assert Reverse(eps) == [last] + Reverse(init);
      SumCountsCons(last, Reverse(init));
    }
  }

  predicate Counted(eps: seq<Episode>) {
    forall k :: 0 <= k < |eps| ==> eps[k].count >= 1
  }

  lemma StepCounts(c: seq<Episode>, e: EmotionEntry)
    requires Counted(c)
    ensures Counted(Step(c, e)) && SumCounts(Step(c, e)) == SumCounts(c) + 1
  {
    if c == [] || Boundary(c[|c| - 1], e) {
      var r := c + [Seed(e)];
      assert r[..|r| - 1] == c;
    } else {
      var front := c[..|c| - 1];
      var r := front + [Extend(c[|c| - 1], e)];
      assert r[..|r| - 1] == front;
    }
  }

  /** The episode counts add up to the number of samples, and every episode
      holds at least one sample. */
  lemma {:induction false} ChronicleCounts(s: seq<EmotionEntry>)
    ensures Counted(Chronicle(s)) && SumCounts(Chronicle(s)) == |s|
  {
    if s != [] {
      ChronicleCounts(s[..|s| - 1]);
      StepCounts(Chronicle(s[..|s| - 1]), s[|s| - 1]);
    }
  }

  /** Adjacent episodes with the same label lie more than the tolerance apart. */
  predicate Spaced(eps: seq<Episode>) {
    forall k :: 0 < k < |eps| && eps[k - 1].emotion == eps[k].emotion ==>
      eps[k].startTime - eps[k - 1].endTime > GapToleranceMs
  }

  lemma StepSpaced(c: seq<Episode>, e: EmotionEntry)
    requires Spaced(c)
    ensures Spaced(Step(c, e))
  {
    if c == [] || Boundary(c[|c| - 1], e) {
      var r := c + [Seed(e)];
      forall k | 0 < k < |r| && r[k - 1].emotion == r[k].emotion
        ensures r[k].startTime - r[k - 1].endTime > GapToleranceMs
      {
        if k < |c| {
          assert r[k - 1] == c[k - 1] && r[k] == c[k];
        }
      }
    } else {
      var r := c[..|c| - 1] + [Extend(c[|c| - 1], e)];
      forall k | 0 < k < |r| && r[k - 1].emotion == r[k].emotion
        ensures r[k].startTime - r[k - 1].endTime > GapToleranceMs
      {
        assert r[k - 1] == c[k - 1];
        assert r[k].startTime == c[k].startTime && r[k].emotion == c[k].emotion;
      }
    }
  }

  lemma {:induction false} ChronicleSpaced(s: seq<EmotionEntry>)
    ensures Spaced(Chronicle(s))
  {
    if s != [] {
      ChronicleSpaced(s[..|s| - 1]);
      StepSpaced(Chronicle(s[..|s| - 1]), s[|s| - 1]);
    }
  }

  /** Each episode starts no later than it ends, and ends no later than the
      next one starts. */
  predicate Chronological(eps: seq<Episode>) {
    (forall k :: 0 <= k < |eps| ==> eps[k].startTime <= eps[k].endTime) &&
    (forall k :: 0 < k < |eps| ==> eps[k - 1].endTime <= eps[k].startTime)
  }

  lemma StepChronological(c: seq<Episode>, e: EmotionEntry)
    requires Chronological(c)
    requires c != [] ==> c[|c| - 1].endTime <= e.timestamp
    ensures Chronological(Step(c, e))
    ensures Step(c, e)[|Step(c, e)| - 1].endTime == e.timestamp
  {
    if c == [] || Boundary(c[|c| - 1], e) {
      var r := c + [Seed(e)];
      assert forall k :: 0 <= k < |c| ==> r[k] == c[k];
    } else {
      var r := c[..|c| - 1] + [Extend(c[|c| - 1], e)];
      assert forall k :: 0 <= k < |c| - 1 ==> r[k] == c[k];
    }
  }

  /** On timestamp-sorted samples the episodes are ordered in time. */
  lemma {:induction false} ChronicleChronological(s: seq<EmotionEntry>)
    requires SortedBy(s, Timestamp)
    ensures Chronological(Chronicle(s))
    ensures s != [] ==> Chronicle(s) != [] && Chronicle(s)[|Chronicle(s)| - 1].endTime == s[|s| - 1].timestamp
  {
    if s != [] {
      var init, e := s[..|s| - 1], s[|s| - 1];
      assert SortedBy(init, Timestamp);
      ChronicleChronological(init);
      if init != [] {
        assert Timestamp(s[|s| - 2]) <= Timestamp(s[|s| - 1]);
      }
      StepChronological(Chronicle(init), e);
    }
  }

  predicate AveragesInRange(eps: seq<Episode>) {
    forall k :: 0 <= k < |eps| ==> InUnitInterval(eps[k].avgConfidence)
  }

  lemma StepAverages(c: seq<Episode>, e: EmotionEntry)
    requires AveragesInRange(c) && ValidEntry(e)
    ensures AveragesInRange(Step(c, e))
  {
    if c == [] || Boundary(c[|c| - 1], e) {
      var r := c + [Seed(e)];
      assert forall k :: 0 <= k < |c| ==> r[k] == c[k];
    } else {
      var open := c[|c| - 1];
      var r := c[..|c| - 1] + [Extend(open, e)];
      assert forall k :: 0 <= k < |c| - 1 ==> r[k] == c[k];
      MeanStepBounds(open.avgConfidence, open.count, e.confidence);
    }
  }

  /** Each running average stays in [0, 1] when every confidence does. */
  lemma {:induction false} ChronicleAverages(s: seq<EmotionEntry>)
    requires forall i :: 0 <= i < |s| ==> ValidEntry(s[i])
    ensures AveragesInRange(Chronicle(s))
  {
    if s != [] {
      ChronicleAverages(s[..|s| - 1]);
      StepAverages(Chronicle(s[..|s| - 1]), s[|s| - 1]);
    }
  }

  lemma MeanStepBounds(avg: real, n: nat, x: real)
    requires InUnitInterval(avg) && InUnitInterval(x)
    ensures InUnitInterval(MeanStep(avg, n, x))
  {
    var d := n as real;
    var num := avg * d + x;
    assert 0.0 <= avg * d <= d by {
      MulBounds(avg, d);
    }
    UnitRatio(num, d + 1.0);
  }

  lemma MulBounds(a: real, d: real)
    requires 0.0 <= a <= 1.0 && 0.0 <= d
    ensures 0.0 <= a * d <= d
  {
  }

  /** The timeline as displayed: newest first, counts adding up to the
      number of samples, episodes ordered and spaced in time. */
  lemma TimelineShape(emotions: seq<EmotionEntry>)
    ensures var t := Timeline(emotions);
      SumCounts(t) == |emotions| &&
      (emotions == [] <==> t == []) &&
      (forall j :: 0 <= j < |t| ==> t[j].count >= 1 && t[j].startTime <= t[j].endTime) &&
      (forall j :: 0 < j < |t| ==> t[j].endTime <= t[j - 1].startTime) &&
      (forall j :: 0 < j < |t| && t[j].emotion == t[j - 1].emotion ==>
         t[j - 1].startTime - t[j].endTime > GapToleranceMs)
  {
    if emotions != [] {
      var sorted := SortByTimestamp(emotions);
      var c := Chronicle(sorted);
      var t := Reverse(c);
      var n := |c|;
      ChronicleCounts(sorted);
      ChronicleChronological(sorted);
      ChronicleSpaced(sorted);
      SumCountsReverse(c);
      forall j | 0 < j < |t|
        ensures t[j].endTime <= t[j - 1].startTime
        ensures t[j].emotion == t[j - 1].emotion ==> t[j - 1].startTime - t[j].endTime > GapToleranceMs
      {
        var k := n - j;
        assert t[j] == c[k - 1] && t[j - 1] == c[k];
      }
    }
  }

  /** For valid samples every displayed average lies in [0, 1]. */
  lemma TimelineAverages(emotions: seq<EmotionEntry>)
    requires forall i :: 0 <= i < |emotions| ==> ValidEntry(emotions[i])
    ensures forall j :: 0 <= j < |Timeline(emotions)| ==> InUnitInterval(Timeline(emotions)[j].avgConfidence)
  {
    if emotions != [] {
      var sorted := SortByTimestamp(emotions);
      forall i | 0 <= i < |sorted| ensures ValidEntry(sorted[i]) {
        assert sorted[i] in multiset(emotions);
      }
      ChronicleAverages(sorted);
    }
  }

  // ---------------------------------------------------------------------
  // Emotion flow and duration formatting

  /** `emotionFlow`: nothing for fewer than two samples, otherwise the
      distinct labels among the last 50 samples in first-seen order, at most
      five of them. */
  function EmotionFlow(emotions: seq<EmotionEntry>): Option<seq<Emotion>> {
    if |emotions| < 2 then None
    else Some(Take(Dedup(LabelsOf(LastN(emotions, 50))), 5))
  }

  /** `f` holds the first (at most n) distinct elements of `window`, in the
      order they first occur: no repeats, nothing from outside the window,
      a label missing only when n are listed, and every label that first
      occurs before a listed one listed too. */
  ghost predicate FirstDistinctOf(window: seq<Emotion>, f: seq<Emotion>, n: nat) {
    |f| <= n && Distinct(f) &&
    (forall i :: 0 <= i < |f| ==> f[i] in window) &&
    (forall i :: 0 <= i < |window| ==> window[i] in f || |f| == n) &&
    (forall i, j :: 0 <= i < j < |f| ==> FirstIndex(window, f[i]) < FirstIndex(window, f[j])) &&
    (forall i, j :: 0 <= i < |window| && 0 <= j < |f| && FirstIndex(window, window[i]) < FirstIndex(window, f[j]) ==> window[i] in f)
  }

  /** The flow is absent for fewer than two samples; otherwise it is the
      first five distinct labels of the 50-sample window, in the order they
      first occur there. */
  lemma EmotionFlowShape(emotions: seq<EmotionEntry>)
    ensures EmotionFlow(emotions).None? <==> |emotions| < 2
    ensures EmotionFlow(emotions).Some? ==>
      FirstDistinctOf(LabelsOf(LastN(emotions, 50)), EmotionFlow(emotions).value, 5)
  {
    if |emotions| >= 2 {
      FirstDistinct(LabelsOf(LastN(emotions, 50)), 5);
    }
  }

  /** Taking n of the de-duplicated window gives its first n distinct
      elements. */
  lemma FirstDistinct(window: seq<Emotion>, n: nat)
    ensures FirstDistinctOf(window, Take(Dedup(window), n), n)
  {
    var d := Dedup(window);
    DedupFirstSeenOrder(window);
    var f := Take(d, n);
    assert forall i :: 0 <= i < |f| ==> f[i] == d[i];
    FirstDistinctPrefixClosed(window, d, f);
  }

  lemma FirstDistinctPrefixClosed(window: seq<Emotion>, d: seq<Emotion>, f: seq<Emotion>)
    requires forall i :: 0 <= i < |window| ==> window[i] in d
    requires forall i, j :: 0 <= i < j < |d| ==> FirstIndex(window, d[i]) < FirstIndex(window, d[j])
    requires |f| <= |d| && forall i :: 0 <= i < |f| ==> f[i] == d[i]
    ensures forall i, j :: 0 <= i < |window| && 0 <= j < |f| && FirstIndex(window, window[i]) < FirstIndex(window, f[j]) ==> window[i] in f
  {
    forall i, j | 0 <= i < |window| && 0 <= j < |f| && FirstIndex(window, window[i]) < FirstIndex(window, f[j])
      ensures window[i] in f
    {
      EarlierListed(window, d, f, window[i], j);
    }
  }

  lemma EarlierListed(window: seq<Emotion>, d: seq<Emotion>, f: seq<Emotion>, x: Emotion, j: nat)
    requires x in d
    requires forall i, j :: 0 <= i < j < |d| ==> FirstIndex(window, d[i]) < FirstIndex(window, d[j])
    requires j < |f| <= |d| && forall i :: 0 <= i < |f| ==> f[i] == d[i]
    requires FirstIndex(window, x) < FirstIndex(window, d[j])
    ensures x in f
  {
    var k :| 0 <= k < |d| && d[k] == x;
    assert k < j;
    assert f[k] == x;
  }

  /** `formatDuration(start, end)`: whole seconds when under a minute,
      otherwise whole minutes and the remaining seconds. */
  function FormatDuration(start: int, end: int): string {
    var seconds := (end - start) / 1000;
    if seconds < 60 then IntToString(seconds) + "s"
    else IntToString(seconds / 60) + "m " + IntToString(seconds % 60) + "s"
  }

  /** The two formats: "Ns" under a minute, "Mm Ss" with S below 60 from
      a minute on. */
  function DurationText(seconds: nat): string {
    if seconds < 60 then NatToString(seconds) + "s"
    else NatToString(seconds / 60) + "m " + NatToString(seconds % 60) + "s"
  }

  lemma FormatDurationText(start: int, end: int)
    requires start <= end
    ensures FormatDuration(start, end) == DurationText((end - start) / 1000)
  {
  }

  /** Reading "Ns" (N below 60) or "Mm Ss" (S below 60) back as a number of
      seconds. */
  function DurationSeconds(text: string): Option<int> {
    if |text| == 0 || text[|text| - 1] != 's' then None
    else
      var parts := Split(text[..|text| - 1], ' ');
      if |parts| == 1 && LeadingField(parts[0]) && DigitsValue(parts[0]) < 60 then Some(DigitsValue(parts[0]))
      else if |parts| == 2 && |parts[0]| >= 2 && parts[0][|parts[0]| - 1] == 'm' &&
              LeadingField(parts[0][..|parts[0]| - 1]) && LeadingField(parts[1]) &&
              DigitsValue(parts[1]) < 60 then
        Some(DigitsValue(parts[0][..|parts[0]| - 1]) * 60 + DigitsValue(parts[1]))
      else None
  }

  /** For an episode that ends no earlier than it starts, the formatted
      length reads back as the elapsed whole seconds. */
  lemma FormatDurationRoundTrip(start: int, end: int)
    requires start <= end
    ensures DurationSeconds(FormatDuration(start, end)) == Some((end - start) / 1000)
    ensures FormatDuration(start, end) == DurationText((end - start) / 1000)
  {
    var seconds := (end - start) / 1000;
    var text := FormatDuration(start, end);
    FormatDurationText(start, end);
    if seconds < 60 {
      var n := NatToString(seconds);
      assert text == n + "s";
      assert text[..|text| - 1] == n;
      NoSpaceInDigits(n);
      SplitSingle(n, ' ');
    } else {
      var m, sec := NatToString(seconds / 60), NatToString(seconds % 60);
      var mm := m + "m";
      assert text == mm + " " + sec + "s";
      assert text[..|text| - 1] == mm + [' '] + sec;
      NoSpaceInDigits(m);
      NoSpaceInDigits(sec);
      assert ' ' !in mm;
      SplitCons(mm, sec, ' ');
      SplitSingle(sec, ' ');
      assert mm[..|mm| - 1] == m;
    }
  }

  lemma NoSpaceInDigits(s: string)
    requires AllDigits(s)
    ensures ' ' !in s
  {
    assert forall i :: 0 <= i < |s| ==> s[i] != ' ';
  }
}
