/** The guided breathing exercise: four phases repeated until the cycle
    counter reaches its target. A tick of the animation loop is modelled by
    the time elapsed since the current phase began. */
module Breathing {

  datatype Phase = Inhale | Hold | Exhale | Rest

  /** The phase order of one breath. */
  const PhaseSequence: seq<Phase> := [Inhale, Hold, Exhale, Rest]

  /** The number of counted cycles after which the exercise ends. */
  const TotalCycles: nat := 4

  /** Milliseconds spent in each phase. */
  function PhaseDuration(p: Phase): (d: nat)
    ensures d > 0
  {
    match p
    case Inhale => 4000
    case Hold => 4000
    case Exhale => 4000
    case Rest => 2000
  }

  /** `phaseSequence.indexOf(p)`. */
  function PhaseIndex(p: Phase): (i: nat)
    ensures i < |PhaseSequence| && PhaseSequence[i] == p
  {
    match p
    case Inhale => 0
    case Hold => 1
    case Exhale => 2
    case Rest => 3
  }

  /** `phaseSequence[(indexOf(p) + 1) % length]`. */
  function Next(p: Phase): Phase {
    PhaseSequence[(PhaseIndex(p) + 1) % |PhaseSequence|]
  }

  /** The successor order is a single cycle of length four through every
      phase, and only `rest` wraps round to the first phase. */
  lemma NextCycle(p: Phase)
    ensures Next(Next(Next(Next(p)))) == p
    ensures Next(p) != p && Next(Next(p)) != p && Next(Next(Next(p))) != p
    ensures (PhaseIndex(p) + 1) % |PhaseSequence| == 0 <==> p == Rest
    ensures Next(p) == Inhale <==> p == Rest
  {
  }

  /** `Math.min(elapsed / duration, 1)`. */
  function Progress(elapsed: nat, duration: nat): (r: real)
    requires duration > 0
    ensures 0.0 <= r <= 1.0
    ensures r == 1.0 <==> elapsed >= duration
    ensures r < 1.0 ==> r * duration as real == elapsed as real
  {
    var q := elapsed as real / duration as real;
    if q <= 1.0 then q else 1.0
  }

  // ---------------------------------------------------------------------
  // The exercise state and one tick

  datatype BreathState = BreathState(isActive: bool, phase: Phase, progress: real, cycleCount: nat)

  /** The state the component starts in and `resetExercise` returns to. */
  const Initial: BreathState := BreathState(false, Rest, 0.0, 0)

  predicate ValidState(s: BreathState) {
    s.cycleCount < TotalCycles && 0.0 <= s.progress <= 1.0
  }

  /** A tick's result; `completed` is the `onComplete` call. */
  datatype Tick = Tick(state: BreathState, completed: bool)

  /** One run of `updateProgress`, `elapsed` milliseconds into the phase.
      An inactive exercise does not animate. */
  function Step(s: BreathState, elapsed: nat): Tick {
    if !s.isActive then Tick(s, false)
    else
      var progress := Progress(elapsed, PhaseDuration(s.phase));
      if progress < 1.0 then Tick(s.(progress := progress), false)
      else if Next(s.phase) == Inhale then
        if s.cycleCount + 1 >= TotalCycles then Tick(Initial, true)
        else Tick(BreathState(true, Inhale, 0.0, s.cycleCount + 1), false)
      else Tick(BreathState(true, Next(s.phase), 0.0, s.cycleCount), false)
  }

  /** What a tick does: before the phase's time is up only the progress
      moves; when it is up the next phase starts at progress 0; the counter
      moves only on the wrap from `rest`, and the exercise ends (and resets)
      exactly when that wrap would reach the target. Every tick keeps the
      state valid. */
  lemma StepSpec(s: BreathState, elapsed: nat)
    ensures var t := Step(s, elapsed);
      ValidState(s) ==> ValidState(t.state)
    ensures var t := Step(s, elapsed);
      s.isActive && elapsed < PhaseDuration(s.phase) ==>
        !t.completed && t.state.phase == s.phase && t.state.cycleCount == s.cycleCount &&
        t.state.progress == elapsed as real / PhaseDuration(s.phase) as real
    ensures var t := Step(s, elapsed);
      s.isActive && elapsed >= PhaseDuration(s.phase) ==>
        (t.completed <==> s.phase == Rest && s.cycleCount + 1 >= TotalCycles) &&
        (t.completed ==> t.state == Initial) &&
        (!t.completed ==> t.state.isActive && t.state.phase == Next(s.phase) && t.state.progress == 0.0 &&
                          t.state.cycleCount == (if s.phase == Rest then s.cycleCount + 1 else s.cycleCount))
    ensures !s.isActive ==> Step(s, elapsed) == Tick(s, false)
  {
    NextCycle(s.phase);
  }

  /** `n` ticks each arriving when the phase's time is up. */
  function RunPhases(s: BreathState, n: nat): BreathState
    decreases n
  {
    if n == 0 then s else RunPhases(Step(s, PhaseDuration(s.phase)).state, n - 1)
  }

  lemma {:induction false} RunPhasesAdd(s: BreathState, a: nat, b: nat)
    ensures RunPhases(s, a + b) == RunPhases(RunPhases(s, a), b)
    decreases a
  {
    if a > 0 {
      RunPhasesAdd(Step(s, PhaseDuration(s.phase)).state, a - 1, b);
    }
  }

  /** One full breath from the start of an inhale counts one cycle. */
  lemma OneBreath(c: nat)
    requires c + 1 < TotalCycles
    ensures RunPhases(BreathState(true, Inhale, 0.0, c), 4) == BreathState(true, Inhale, 0.0, c + 1)
  {
    var s0 := BreathState(true, Inhale, 0.0, c);
    var s1 := BreathState(true, Hold, 0.0, c);
    var s2 := BreathState(true, Exhale, 0.0, c);
    var s3 := BreathState(true, Rest, 0.0, c);
    assert Step(s0, 4000).state == s1;
    assert Step(s1, 4000).state == s2;
    assert Step(s2, 4000).state == s3;
    assert Step(s3, 2000).state == BreathState(true, Inhale, 0.0, c + 1);
    assert RunPhases(s3, 1) == BreathState(true, Inhale, 0.0, c + 1);
  }

  /** Started from the initial state, the opening `rest` already counts as
      a cycle: the exercise ends after 13 phases, that is after only three
      full breaths, although the display promises four cycles. It is still
      running after 12. */
  lemma CompletesAfterThreeBreaths()
    ensures var start := Initial.(isActive := true);
      RunPhases(start, 12) == BreathState(true, Rest, 0.0, 3) &&
      Step(RunPhases(start, 12), 2000) == Tick(Initial, true) &&
      RunPhases(start, 13) == Initial
  {
    var start := Initial.(isActive := true);
    OpeningRest();
    OneBreath(1);
    OneBreath(2);
    RunPhasesAdd(start, 1, 4);
    RunPhasesAdd(start, 5, 4);
    LastBreath();
    RunPhasesAdd(start, 9, 3);
    RunPhasesAdd(start, 12, 1);
    FinalWrap();
  }

  /** The opening `rest` ends in the first counted cycle. */
  lemma OpeningRest()
    ensures RunPhases(Initial.(isActive := true), 1) == BreathState(true, Inhale, 0.0, 1)
  {
    var start := Initial.(isActive := true);
    assert Step(start, 2000).state == BreathState(true, Inhale, 0.0, 1);
  }

  /** The inhale, hold and exhale of the last breath. */
  lemma LastBreath()
    ensures RunPhases(BreathState(true, Inhale, 0.0, 3), 3) == BreathState(true, Rest, 0.0, 3)
  {
    var i3 := BreathState(true, Inhale, 0.0, 3);
    var h3 := BreathState(true, Hold, 0.0, 3);
    var e3 := BreathState(true, Exhale, 0.0, 3);
    var r3 := BreathState(true, Rest, 0.0, 3);
    assert Step(i3, 4000).state == h3;
    assert Step(h3, 4000).state == e3;
    assert Step(e3, 4000).state == r3;
    assert RunPhases(e3, 1) == r3;
  }

  /** The wrap that would count the fourth cycle ends the exercise. */
  lemma FinalWrap()
    ensures Step(BreathState(true, Rest, 0.0, 3), 2000) == Tick(Initial, true)
    ensures RunPhases(BreathState(true, Rest, 0.0, 3), 1) == Initial
  {
    assert Step(BreathState(true, Rest, 0.0, 3), 2000) == Tick(Initial, true);
  }

  /** A finished or paused exercise stays put. */
  lemma RunPhasesInactive(s: BreathState, n: nat)
    requires !s.isActive
    ensures RunPhases(s, n) == s
  {
  }

  // ---------------------------------------------------------------------
  // The orb

  /** `getOrbScale`. */
  function OrbScale(s: BreathState): (r: real)
    ensures 0.0 <= s.progress <= 1.0 ==> 1.0 <= r <= 1.5
    ensures !s.isActive ==> r == 1.0
  {
    if !s.isActive then 1.0
    else match s.phase
      case Inhale => 1.0 + s.progress * 0.5
      case Hold => 1.5
      case Exhale => 1.5 - s.progress * 0.5
      case Rest => 1.0
  }

  /** `getOrbOpacity`. */
  function OrbOpacity(s: BreathState): (r: real)
    ensures 0.0 <= s.progress <= 1.0 ==> 0.4 <= r <= 0.8
    ensures !s.isActive ==> r == 0.4
  {
    if !s.isActive then 0.4
    else match s.phase
      case Inhale => 0.4 + s.progress * 0.4
      case Hold => 0.8
      case Exhale => 0.8 - s.progress * 0.4
      case Rest => 0.4
  }

  /** The orb brightens exactly as it grows: opacity is an affine function
      of scale in every state. */
  lemma OpacityFollowsScale(s: BreathState)
    ensures OrbOpacity(s) == 0.4 + (OrbScale(s) - 1.0) * 0.8
  {
  }

  /** The orb does not jump when a phase ends: the scale at the end of a
      phase is the scale at the start of the next. */
  lemma OrbContinuous(p: Phase, c: nat)
    ensures OrbScale(BreathState(true, p, 1.0, c)) == OrbScale(BreathState(true, Next(p), 0.0, c))
  {
  }

  // ---------------------------------------------------------------------
  // The component

  class BreathingExercise {
    var isActive: bool
    var phase: Phase
    var progress: real
    var cycleCount: nat

    function State(): BreathState
      reads this
    {
      BreathState(isActive, phase, progress, cycleCount)
    }

    constructor()
      ensures State() == Initial
    {
      isActive, phase, progress, cycleCount := false, Rest, 0.0, 0;
    }

    /** `resetExercise`. */
    method Reset()
      modifies this
      ensures State() == Initial
    {
      isActive := false;
      phase := Rest;
      progress := 0.0;
      cycleCount := 0;
    }

    /** The play/pause button: only the active flag flips. */
    method Toggle()
      modifies this
      ensures State() == old(State()).(isActive := !old(isActive))
    {
      isActive := !isActive;
    }

    /** `updateProgress`, `elapsed` milliseconds into the phase; the result
        says whether `onComplete` fired. */
    method UpdateProgress(elapsed: nat) returns (completed: bool)
      modifies this
      ensures Tick(State(), completed) == Step(old(State()), elapsed)
    {
      completed := false;
      if !isActive {
        return;
      }
      var p := Progress(elapsed, PhaseDuration(phase));
      progress := p;
      if p >= 1.0 {
        var nextIndex := (PhaseIndex(phase) + 1) % |PhaseSequence|;
        var nextPhase := PhaseSequence[nextIndex];
        if nextIndex == 0 {
          var newCycleCount := cycleCount + 1;
          if newCycleCount >= TotalCycles {
            Reset();
            completed := true;
            return;
          }
          cycleCount := newCycleCount;
        }
        phase := nextPhase;
        progress := 0.0;
      }
    }
  }
}
