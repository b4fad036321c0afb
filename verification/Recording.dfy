/** The clock of a meeting recording: started, paused, resumed and stopped at times given from outside. */
module Recording {
  import opened Wrappers

  datatype Phase = Idle | Active | Paused | Saving

  /** `End` is the helper's report that the recording was saved, failed, or that the helper is gone */
  datatype Action = Start | Pause(paused: bool) | Stop | End

  /** `sent` is false when the helper could not be told, which changes nothing */
  datatype Step = Step(now: nat, action: Action, sent: bool)

  datatype State = State(phase: Phase, startedAt: Option<nat>, elapsed: nat, stored: seq<nat>)

  const INITIAL := State(Idle, None, 0, [])

  // ----- the program

  function Elapsed(s: State, now: nat): nat {
    s.elapsed + if s.startedAt.Some? then Since(now, s.startedAt.value) else 0
  }

  predicate Running(phase: Phase) { phase == Active || phase == Paused }

  function Apply(s: State, step: Step): State {
    match step.action
    case Start =>
      if s.phase != Idle || !step.sent then s else State(Active, Some(step.now), 0, s.stored)
    case Pause(paused) =>
      if !Running(s.phase) || paused == (s.phase == Paused) || !step.sent then s
      else if paused then s.(phase := Paused, startedAt := None, elapsed := Elapsed(s, step.now))
      else s.(phase := Active, startedAt := Some(step.now))
    case Stop =>
      if !Running(s.phase) || !step.sent then s
      else State(Saving, None, Elapsed(s, step.now), s.stored + [Elapsed(s, step.now)])
    case End => State(Idle, None, 0, s.stored)
  }

  function Run(s: State, steps: seq<Step>): State
    decreases |steps|
  {
    if steps == [] then s else Run(Apply(s, steps[0]), steps[1..])
  }

  // ----- the reference: time spent in the recording phase

  /** What the actions make of the phase, whatever the time is */
  function Next(phase: Phase, step: Step): Phase {
    if step.action.End? then Idle
    else if !step.sent then phase
    else if step.action.Start? && phase == Idle then Active
    else if step.action == Pause(true) && phase == Active then Paused
    else if step.action == Pause(false) && phase == Paused then Active
    else if step.action.Stop? && Running(phase) then Saving
    else phase
  }

  function PhaseAfter(phase: Phase, steps: seq<Step>): Phase
    decreases |steps|
  {
    if steps == [] then phase else PhaseAfter(Next(phase, steps[0]), steps[1..])
  }

  /** The clock never goes back */
  predicate Monotone(at: nat, steps: seq<Step>)
    decreases |steps|
  {
    steps == [] || (at <= steps[0].now && Monotone(steps[0].now, steps[1..]))
  }

  /** Time from `at` until the last step that is spent in the recording phase */
  function Recorded(phase: Phase, at: nat, steps: seq<Step>): nat
    requires Monotone(at, steps)
    decreases |steps|
  {
    if steps == [] then 0
    else (if phase == Active then steps[0].now - at else 0) + Recorded(Next(phase, steps[0]), steps[0].now, steps[1..])
  }

  function LastTime(at: nat, steps: seq<Step>): nat { if steps == [] then at else steps[|steps| - 1].now }

  function Sum(times: seq<nat>): nat { if times == [] then 0 else times[0] + Sum(times[1..]) }

  /** What had been recorded of the recordings that ended without a stop */
  function GivenUp(s: State, steps: seq<Step>): nat
    decreases |steps|
  {
    if steps == [] then 0 else LostBy(s, steps[0]) + GivenUp(Apply(s, steps[0]), steps[1..])
  }

  function LostBy(s: State, step: Step): nat {
    if step.action.End? && Running(s.phase) then Elapsed(s, step.now) else 0
  }

  // ----- the proof

  predicate Clocked(s: State, at: nat) {
    && (s.startedAt.Some? <==> s.phase == Active)
    && (s.phase == Active ==> s.startedAt.value <= at)
  }

  /** The durations of recordings that were stopped, and what has been recorded of the one under way */
  function Total(s: State, now: nat): nat { Sum(s.stored) + if Running(s.phase) then Elapsed(s, now) else 0 }

  lemma {:induction false} SumSnoc(times: seq<nat>, t: nat)
    ensures Sum(times + [t]) == Sum(times) + t
  {
    if times == [] {
      assert times + [t] == [t] && [t][1..] == [];
    } else {
      assert (times + [t])[1..] == times[1..] + [t];
      SumSnoc(times[1..], t);
    }
  }

  lemma StepClocked(s: State, at: nat, step: Step)
    requires Clocked(s, at) && at <= step.now
    ensures Clocked(Apply(s, step), step.now) && Apply(s, step).phase == Next(s.phase, step)
  {}

  lemma StepTotal(s: State, at: nat, step: Step)
    requires Clocked(s, at) && at <= step.now
    ensures Total(Apply(s, step), step.now) + LostBy(s, step)
            == Total(s, at) + if s.phase == Active then step.now - at else 0
  {
    SumSnoc(s.stored, Elapsed(s, step.now));
  }

  lemma {:induction false} RunClocked(s: State, at: nat, steps: seq<Step>)
    requires Clocked(s, at) && Monotone(at, steps)
    ensures Clocked(Run(s, steps), LastTime(at, steps)) && Run(s, steps).phase == PhaseAfter(s.phase, steps)
    decreases |steps|
  {
    if steps != [] {
      StepClocked(s, at, steps[0]);
      RunClocked(Apply(s, steps[0]), steps[0].now, steps[1..]);
    }
  }

  lemma {:induction false} RunTotal(s: State, at: nat, steps: seq<Step>)
    requires Clocked(s, at) && Monotone(at, steps)
    ensures Total(Run(s, steps), LastTime(at, steps)) + GivenUp(s, steps) == Total(s, at) + Recorded(s.phase, at, steps)
    decreases |steps|
  {
    if steps != [] {
      StepTotal(s, at, steps[0]);
      StepClocked(s, at, steps[0]);
      RunTotal(Apply(s, steps[0]), steps[0].now, steps[1..]);
    }
  }

  /** The start of a recording is noted exactly while it records */
  lemma {:induction false} StartedExactlyWhileRecording(steps: seq<Step>)
    requires Monotone(0, steps)
    ensures var s := Run(INITIAL, steps); s.startedAt.Some? <==> PhaseAfter(Idle, steps) == Active
  {
    RunClocked(INITIAL, 0, steps);
  }

  /** No recorded time is lost or counted twice: the durations stored so far, the elapsed time of the recording under
      way, and what was recorded of those that were given up are, at any later time, the time spent recording */
  lemma {:induction false} TimeIsConserved(steps: seq<Step>, now: nat)
    requires Monotone(0, steps) && LastTime(0, steps) <= now
    ensures Total(Run(INITIAL, steps), now) + GivenUp(INITIAL, steps)
            == Recorded(Idle, 0, steps) + if PhaseAfter(Idle, steps) == Active then now - LastTime(0, steps) else 0
  {
    RunClocked(INITIAL, 0, steps);
    RunTotal(INITIAL, 0, steps);
  }

  /** Steps that neither end a recording nor start another */
  predicate GoesOn(phase: Phase, steps: seq<Step>)
    decreases |steps|
  {
    Running(phase) && (steps == [] || GoesOn(Next(phase, steps[0]), steps[1..]))
  }

  lemma {:induction false} OnlyElapses(s: State, at: nat, steps: seq<Step>)
    requires Clocked(s, at) && Monotone(at, steps) && GoesOn(s.phase, steps)
    ensures var r := Run(s, steps);
      && Running(r.phase) && r.phase == PhaseAfter(s.phase, steps) && Clocked(r, LastTime(at, steps))
      && r.stored == s.stored
      && Elapsed(r, LastTime(at, steps)) == Elapsed(s, at) + Recorded(s.phase, at, steps)
    decreases |steps|
  {
    if steps != [] {
      StepClocked(s, at, steps[0]);
      OnlyElapses(Apply(s, steps[0]), steps[0].now, steps[1..]);
    }
  }

  /** What has been recorded since the last of the steps of a recording */
  function Open(steps: seq<Step>, start: nat, now: nat): nat {
    if PhaseAfter(Active, steps) == Active then Since(now, LastTime(start, steps)) else 0
  }

  /** A recording is stored with the time it recorded from its start to its stop, pauses left out */
  lemma {:induction false} StoredIsWhatWasRecorded(s: State, start: Step, middle: seq<Step>, stop: Step)
    requires s.phase == Idle && start.action.Start? && start.sent && stop.action.Stop? && stop.sent
    requires Monotone(start.now, middle) && GoesOn(Active, middle) && LastTime(start.now, middle) <= stop.now
    ensures var r := Apply(Run(Apply(s, start), middle), stop);
      && r.phase == Saving && r.startedAt == None
      && r.stored == s.stored + [Recorded(Active, start.now, middle) + Open(middle, start.now, stop.now)]
  {
    OnlyElapses(Apply(s, start), start.now, middle);
  }

  // ----- the recorder

  class Recorder {
    var phase: Phase
    var startedAt: Option<nat>
    var elapsed: nat
    /** The durations written into recordings, in order */
    var stored: seq<nat>

    function View(): State
      reads this
    {
      State(phase, startedAt, elapsed, stored)
    }

    constructor ()
      ensures View() == INITIAL
    {
      phase, startedAt, elapsed, stored := Idle, None, 0, [];
    }

    function ElapsedAt(now: nat): (r: nat)
      reads this
      ensures r == Elapsed(View(), now)
    {
      elapsed + match startedAt { case Some(at) => Since(now, at) case None => 0 }
    }

    method Start(now: nat, sent: bool) returns (ok: bool)
      modifies this
      ensures View() == Apply(old(View()), Step(now, Action.Start, sent))
      ensures ok <==> old(phase) == Idle && sent
    {
      if phase != Idle || !sent { return false; }
      phase, startedAt, elapsed := Active, Some(now), 0;
      return true;
    }

    method Pause(now: nat, paused: bool, sent: bool) returns (ok: bool)
      modifies this
      ensures View() == Apply(old(View()), Step(now, Action.Pause(paused), sent))
      ensures ok <==> Running(old(phase)) && (paused == (old(phase) == Paused) || sent)
    {
      if !Running(phase) { return false; }
      if paused == (phase == Paused) { return true; }
      if !sent { return false; }
      if paused {
        elapsed := ElapsedAt(now);
        startedAt, phase := None, Paused;
      } else {
        startedAt, phase := Some(now), Active;
      }
      return true;
    }

    method Stop(now: nat, sent: bool) returns (ok: bool)
      modifies this
      ensures View() == Apply(old(View()), Step(now, Action.Stop, sent))
      ensures ok <==> Running(old(phase)) && sent
    {
      if !Running(phase) || !sent { return false; }
      var duration := ElapsedAt(now);
      stored := stored + [duration];
      phase, elapsed, startedAt := Saving, duration, None;
      return true;
    }

    method End(now: nat)
      modifies this
      ensures View() == Apply(old(View()), Step(now, Action.End, true))
    {
      phase, startedAt, elapsed := Idle, None, 0;
    }
  }
}
