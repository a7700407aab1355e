/**
 Enforcement profiles: what the motor and the buzzer do while a commitment is not met.
 */
module Profiles {
  import opened Machine
  import opened Events
  import Classify

  const CONTINUOUS: U32 := U32_MAX
  const DECREMENT_MS: U32 := 2000
  const WRAP: int := 0x1_0000_0000

  datatype Step = Step(motorOn: bool, buzzerOn: bool, durationMs: U32)

  /** `floorMs` is 0 when the wait does not shrink. */
  datatype Profile = Profile(loops: bool, steps: seq<Step>, floorMs: U32)

  function Strict(motor: bool, buzzer: bool): Profile {
    Profile(false, [Step(motor, buzzer, CONTINUOUS)], 0)
  }

  function Nagging(motor: bool, buzzer: bool, floorMs: U32): Profile {
    Profile(true, [Step(motor, buzzer, 2000), Step(false, false, 30000)], floorMs)
  }

  /** The table: three strictness levels by three output modes. */
  function Table(p: U8): (d: Profile)
    requires p < PROFILE_COUNT
    ensures |d.steps| == (if d.loops then 2 else 1)
  {
    if p == 0 then Strict(true, false)
    else if p == 1 then Nagging(true, false, 5000)
    else if p == 2 then Nagging(true, false, 10000)
    else if p == 3 then Strict(true, true)
    else if p == 4 then Nagging(true, true, 5000)
    else if p == 5 then Nagging(true, true, 10000)
    else if p == 6 then Strict(false, true)
    else if p == 7 then Nagging(false, true, 5000)
    else Nagging(false, true, 10000)
  }

  /** impulse_profile_step_duration. The product is a 32-bit one and can wrap. */
  function StepDuration(d: Profile, step: nat, cycles: U32): U32 {
    if step >= |d.steps| then 0
    else
      var base := d.steps[step].durationMs;
      var isWait := !d.steps[step].motorOn && !d.steps[step].buzzerOn;
      if base == CONTINUOUS then CONTINUOUS
      else if !isWait || d.floorMs == 0 then base
      else
        var shrink := (cycles * DECREMENT_MS) % WRAP;
        if shrink >= base then d.floorMs
        else if base - shrink < d.floorMs then d.floorMs
        else base - shrink
  }

  datatype Run = Run(
    profile: U8,
    stepIndex: nat,
    stepElapsedMs: U32,
    cycles: U32,
    motorOn: bool,
    buzzerOn: bool,
    finished: bool
  )

  function Started(p: U8): Run {
    if p >= PROFILE_COUNT then Run(p, 0, 0, 0, false, false, true)
    else Run(p, 0, 0, 0, Table(p).steps[0].motorOn, Table(p).steps[0].buzzerOn, false)
  }

  function Stopped(r: Run): Run {
    r.(motorOn := false, buzzerOn := false, finished := true)
  }

  predicate InStep(r: Run) {
    r.profile < PROFILE_COUNT && r.stepIndex < |Table(r.profile).steps|
  }

  predicate Tickable(r: Run) {
    r.finished || r.profile >= PROFILE_COUNT || InStep(r)
  }

  /** Show the outputs of the step the run is in. */
  function Driving(r: Run): Run
    requires InStep(r)
  {
    var s := Table(r.profile).steps[r.stepIndex];
    r.(motorOn := s.motorOn, buzzerOn := s.buzzerOn)
  }

  /** The outputs are those of the step the run is in, or the run is over. */
  predicate Showing(r: Run) {
    r.finished || r.profile >= PROFILE_COUNT || (InStep(r) && Driving(r) == r)
  }

  /** Use up whole steps while enough time has gathered. */
  function Consume(r: Run): (next: Run)
    requires InStep(r)
    ensures Tickable(next)
    decreases r.stepElapsedMs
  {
    var d := Table(r.profile);
    var dur := StepDuration(d, r.stepIndex, r.cycles);
    if dur == CONTINUOUS || r.stepElapsedMs < dur then Driving(r)
    else if r.stepIndex + 1 < |d.steps| then
      Consume(r.(stepElapsedMs := r.stepElapsedMs - dur, stepIndex := r.stepIndex + 1))
    else if !d.loops then Stopped(r.(stepElapsedMs := r.stepElapsedMs - dur, stepIndex := r.stepIndex + 1))
    else
      Consume(r.(stepElapsedMs := r.stepElapsedMs - dur, stepIndex := 0, cycles := (r.cycles + 1) % WRAP))
  }

  /** impulse_profile_tick. */
  function Ticked(r: Run, dt: U32): (next: Run)
    requires Tickable(r)
    ensures Tickable(next)
  {
    if r.finished then r
    else if r.profile >= PROFILE_COUNT then Stopped(r)
    else if StepDuration(Table(r.profile), r.stepIndex, r.cycles) == CONTINUOUS then Driving(r)
    else Consume(r.(stepElapsedMs := (r.stepElapsedMs + dt) % WRAP))
  }

  lemma StepsTakeTime(p: U8, step: nat, cycles: U32)
    requires p < PROFILE_COUNT && step < |Table(p).steps|
    ensures StepDuration(Table(p), step, cycles) > 0
  {
  }

  /** The live state as the firmware keeps it. */
  class ProfileRun {
    var profile: U8
    var stepIndex: nat
    var stepElapsedMs: U32
    var cycles: U32
    var motorOn: bool
    var buzzerOn: bool
    var finished: bool

    function View(): Run
      reads this
    {
      Run(profile, stepIndex, stepElapsedMs, cycles, motorOn, buzzerOn, finished)
    }

    constructor ()
      ensures View() == Run(0, 0, 0, 0, false, false, false)
    {
      profile, stepIndex, stepElapsedMs, cycles := 0, 0, 0, 0;
      motorOn, buzzerOn, finished := false, false, false;
    }

    method Start(p: U8)
      modifies this
      ensures View() == Started(p)
    {
      profile, stepIndex, stepElapsedMs, cycles := p, 0, 0, 0;
      motorOn, buzzerOn, finished := false, false, false;
      if p >= PROFILE_COUNT {
        finished := true;
        return;
      }
      motorOn, buzzerOn := Table(p).steps[0].motorOn, Table(p).steps[0].buzzerOn;
    }

    method Stop()
      modifies this
      ensures View() == Stopped(old(View()))
    {
      motorOn, buzzerOn, finished := false, false, true;
    }

    method Tick(dt: U32) returns (changed: bool)
      requires Tickable(View())
      modifies this
      ensures View() == Ticked(old(View()), dt)
      ensures Showing(old(View())) ==> (changed <==> motorOn != old(motorOn) || buzzerOn != old(buzzerOn))
    {
      hide StepDuration, Table;
      var wasMotor, wasBuzzer := motorOn, buzzerOn;
      if finished {
        return false;
      }
      if profile >= PROFILE_COUNT {
        Stop();
        return wasMotor || wasBuzzer;
      }
      var d := Table(profile);
      if StepDuration(d, stepIndex, cycles) == CONTINUOUS {
        motorOn, buzzerOn := d.steps[stepIndex].motorOn, d.steps[stepIndex].buzzerOn;
        return false;
      }
      stepElapsedMs := (stepElapsedMs + dt) % WRAP;
      UseUp();
      return motorOn != wasMotor || buzzerOn != wasBuzzer;
    }

    /** The loop of the tick, and the outputs after it. */
    method UseUp()
      requires InStep(View()) && !finished
      requires StepDuration(Table(profile), stepIndex, cycles) != CONTINUOUS
      modifies this
      ensures View() == Consume(old(View()))
    {
      hide StepDuration, Table;
      var d := Table(profile);
      var dur := StepDuration(d, stepIndex, cycles);
      while stepElapsedMs >= dur
        invariant InStep(View()) && profile == old(profile)
        invariant dur == StepDuration(d, stepIndex, cycles) != CONTINUOUS
        invariant Consume(View()) == Consume(old(View()))
        decreases stepElapsedMs
      {
        StepsTakeTime(profile, stepIndex, cycles);
        stepElapsedMs := stepElapsedMs - dur;
        stepIndex := stepIndex + 1;
        if stepIndex >= |d.steps| {
          if !d.loops {
            Stop();
            return;
          }
          stepIndex := 0;
          cycles := (cycles + 1) % WRAP;
        }
        dur := StepDuration(d, stepIndex, cycles);
        if dur == CONTINUOUS {
          break;
        }
      }
      motorOn, buzzerOn := d.steps[stepIndex].motorOn, d.steps[stepIndex].buzzerOn;
    }
  }

  // ---------------------------------------------------------------------------
  // The timeline a profile plays out
  // ---------------------------------------------------------------------------

  predicate Loops(p: U8) {
    p < PROFILE_COUNT && Table(p).loops
  }

  const DAY_MS := 86_400_000

  /** The k-th wait: two seconds shorter each time, down to the floor. */
  function Wait(p: U8, k: nat): (w: nat)
    requires Loops(p)
    ensures 5000 <= w <= 30000
  {
    var shrunk := 30000 - 2000 * k;
    if shrunk < Table(p).floorMs then Table(p).floorMs else shrunk
  }

  /** When the k-th burst of output begins, counted from the start of the profile. */
  function CycleStart(p: U8, k: nat): (t: nat)
    requires Loops(p)
    ensures t >= 7000 * k
  {
    if k == 0 then 0 else CycleStart(p, k - 1) + 2000 + Wait(p, k - 1)
  }

  /** Total time a run has been fed: the steps it completed, plus what is left over. */
  function Fed(r: Run): nat
    requires Loops(r.profile)
  {
    CycleStart(r.profile, r.cycles) + (if r.stepIndex == 0 then 0 else 2000) + r.stepElapsedMs
  }

  function StepLength(p: U8, step: nat, cycle: nat): nat
    requires Loops(p)
  {
    if step == 0 then 2000 else Wait(p, cycle)
  }

  /** A looping run at rest between ticks: inside a step, with less than the step's length gathered. */
  predicate OnTimeline(r: Run) {
    && Loops(r.profile) && !r.finished
    && r.stepIndex < 2
    && r.stepElapsedMs < StepLength(r.profile, r.stepIndex, r.cycles)
    && Driving(r) == r
  }

  /** No 32-bit product or counter wraps in a run shorter than a day. */
  lemma DurationInADay(p: U8, step: nat, cycle: nat)
    requires Loops(p) && step < 2 && CycleStart(p, cycle) < DAY_MS
    ensures cycle < 12343
    ensures StepDuration(Table(p), step, cycle) == StepLength(p, step, cycle)
  {
    NoWrap(cycle);
  }

  lemma NoWrap(cycle: nat)
    requires 7000 * cycle < DAY_MS
    ensures cycle < 12343
    ensures (cycle * DECREMENT_MS) % WRAP == cycle * DECREMENT_MS
  {
  }

  lemma {:induction false} ConsumeAccounts(r: Run)
    requires Loops(r.profile) && !r.finished && r.stepIndex < 2
    requires Fed(r) < DAY_MS
    ensures OnTimeline(Consume(r))
    ensures Consume(r).profile == r.profile && Fed(Consume(r)) == Fed(r)
    decreases r.stepElapsedMs
  {
    hide StepDuration, Table, Wait;
    DurationInADay(r.profile, r.stepIndex, r.cycles);
    var dur := StepLength(r.profile, r.stepIndex, r.cycles);
    if r.stepElapsedMs >= dur {
      if r.stepIndex == 0 {
        ConsumeAccounts(r.(stepElapsedMs := r.stepElapsedMs - dur, stepIndex := 1));
      } else {
        ConsumeAccounts(r.(stepElapsedMs := r.stepElapsedMs - dur, stepIndex := 0, cycles := r.cycles + 1));
      }
    }
  }

  /** A tick loses no time: completed steps plus the remainder are what was fed in. */
  lemma TickAccounts(r: Run, dt: U32)
    requires OnTimeline(r) && Fed(r) + dt < DAY_MS
    ensures OnTimeline(Ticked(r, dt))
    ensures Ticked(r, dt).profile == r.profile && Fed(Ticked(r, dt)) == Fed(r) + dt
  {
    hide StepDuration, Table, Consume;
    DurationInADay(r.profile, r.stepIndex, r.cycles);
    ConsumeAccounts(r.(stepElapsedMs := r.stepElapsedMs + dt));
  }

  lemma {:induction false} CycleStartsIncrease(p: U8, j: nat, k: nat)
    requires Loops(p) && j <= k
    ensures CycleStart(p, j) + 7000 * (k - j) <= CycleStart(p, k)
    decreases k - j
  {
    if j < k {
      CycleStartsIncrease(p, j, k - 1);
    }
  }

  lemma FedOrdersCycles(a: Run, b: Run)
    requires OnTimeline(a) && OnTimeline(b) && a.profile == b.profile && a.cycles < b.cycles
    ensures Fed(a) < Fed(b)
  {
    CycleStartsIncrease(a.profile, a.cycles + 1, b.cycles);
  }

  /** The time fed in determines the whole state. */
  lemma TimelineIsUnique(a: Run, b: Run)
    requires OnTimeline(a) && OnTimeline(b) && a.profile == b.profile
    requires Fed(a) == Fed(b)
    ensures a == b
  {
    hide Table;
    if a.cycles < b.cycles {
      FedOrdersCycles(a, b);
    } else if b.cycles < a.cycles {
      FedOrdersCycles(b, a);
    }
  }

  /** A run some event's profile could be in: started, and ticked for less than a day. */
  predicate Running(r: Run, elapsed: nat) {
    && r.profile < PROFILE_COUNT && !r.finished
    && (if Loops(r.profile) then OnTimeline(r) && Fed(r) == elapsed else r == Started(r.profile))
  }

  lemma StartsRunning(p: U8)
    requires p < PROFILE_COUNT
    ensures Running(Started(p), 0)
  {
  }

  /** Ticking keeps a run running, and never finishes it. */
  lemma TickKeepsRunning(r: Run, elapsed: nat, dt: U32)
    requires Running(r, elapsed) && elapsed + dt < DAY_MS
    ensures Running(Ticked(r, dt), elapsed + dt)
    ensures Ticked(r, dt).profile == r.profile
  {
    if Loops(r.profile) {
      TickAccounts(r, dt);
    }
  }

  /** A run in the middle of punishing: in a step of its profile, showing that step's outputs, not over. */
  predicate Alive(r: Run) {
    InStep(r) && !r.finished && Driving(r) == r
  }

  predicate Quiet(r: Run) {
    r.finished && !r.motorOn && !r.buzzerOn
  }

  lemma {:induction false} ConsumeStaysAlive(r: Run)
    requires InStep(r) && !r.finished && Table(r.profile).loops
    ensures Alive(Consume(r)) && Consume(r).profile == r.profile
    decreases r.stepElapsedMs
  {
    hide Table, StepDuration;
    StepsTakeTime(r.profile, r.stepIndex, r.cycles);
    var dur := StepDuration(Table(r.profile), r.stepIndex, r.cycles);
    if dur != CONTINUOUS && r.stepElapsedMs >= dur {
      if r.stepIndex + 1 < |Table(r.profile).steps| {
        ConsumeStaysAlive(r.(stepElapsedMs := r.stepElapsedMs - dur, stepIndex := r.stepIndex + 1));
      } else {
        ConsumeStaysAlive(r.(stepElapsedMs := r.stepElapsedMs - dur, stepIndex := 0, cycles := (r.cycles + 1) % WRAP));
      }
    }
  }

  lemma StrictStepsAreContinuous(p: U8, cycles: U32)
    requires p < PROFILE_COUNT && !Table(p).loops
    ensures |Table(p).steps| == 1 && StepDuration(Table(p), 0, cycles) == CONTINUOUS
  {
  }

  /** Ticking alone never ends a punishment, however long it lasts and whatever wraps. */
  lemma TickStaysAlive(r: Run, dt: U32)
    requires Alive(r)
    ensures Alive(Ticked(r, dt)) && Ticked(r, dt).profile == r.profile
  {
    hide Table, StepDuration, Consume;
    if Table(r.profile).loops {
      ConsumeStaysAlive(r.(stepElapsedMs := (r.stepElapsedMs + dt) % WRAP));
    } else {
      StrictStepsAreContinuous(r.profile, r.cycles);
    }
  }

  // ---------------------------------------------------------------------------
  // Only total time matters
  // ---------------------------------------------------------------------------

  /** The loop overwrites the outputs whatever they were. */
  lemma {:induction false} ConsumeIgnoresOutputs(r: Run, motor: bool, buzzer: bool)
    requires InStep(r)
    ensures Consume(r.(motorOn := motor, buzzerOn := buzzer)) == Consume(r)
    decreases r.stepElapsedMs
  {
    hide Table, StepDuration;
    var d := Table(r.profile);
    var dur := StepDuration(d, r.stepIndex, r.cycles);
    StepsTakeTime(r.profile, r.stepIndex, r.cycles);
    if dur != CONTINUOUS && r.stepElapsedMs >= dur {
      if r.stepIndex + 1 < |d.steps| {
        ConsumeIgnoresOutputs(r.(stepElapsedMs := r.stepElapsedMs - dur, stepIndex := r.stepIndex + 1), motor, buzzer);
      } else if d.loops {
        ConsumeIgnoresOutputs(r.(stepElapsedMs := r.stepElapsedMs - dur, stepIndex := 0, cycles := (r.cycles + 1) % WRAP),
                              motor, buzzer);
      }
    }
  }

  /** One whole step of a looping profile used up. */
  function StepDone(r: Run): (next: Run)
    requires InStep(r) && Table(r.profile).loops
    requires r.stepElapsedMs >= StepDuration(Table(r.profile), r.stepIndex, r.cycles)
    ensures InStep(next) && next.profile == r.profile && next.finished == r.finished
    ensures next.stepElapsedMs == r.stepElapsedMs - StepDuration(Table(r.profile), r.stepIndex, r.cycles)
  {
    var left := r.stepElapsedMs - StepDuration(Table(r.profile), r.stepIndex, r.cycles);
    if r.stepIndex + 1 < |Table(r.profile).steps| then r.(stepElapsedMs := left, stepIndex := r.stepIndex + 1)
    else r.(stepElapsedMs := left, stepIndex := 0, cycles := (r.cycles + 1) % WRAP)
  }

  lemma ConsumeUnfolds(r: Run)
    requires InStep(r) && Table(r.profile).loops
    ensures r.stepElapsedMs < StepDuration(Table(r.profile), r.stepIndex, r.cycles) ==> Consume(r) == Driving(r)
    ensures r.stepElapsedMs >= StepDuration(Table(r.profile), r.stepIndex, r.cycles) ==> Consume(r) == Consume(StepDone(r))
  {
    hide Table, StepDuration;
    StepsEnd(r.profile, r.stepIndex, r.cycles);
  }

  /** Using up what has gathered, then `more`, is using up the sum. */
  lemma {:induction false} ConsumeResumes(r: Run, more: U32)
    requires InStep(r) && !r.finished && Table(r.profile).loops
    requires r.stepElapsedMs + more < WRAP
    ensures var c := Consume(r);
      && InStep(c) && !c.finished && c.profile == r.profile && c.stepElapsedMs <= r.stepElapsedMs
      && Consume(c.(stepElapsedMs := c.stepElapsedMs + more)) == Consume(r.(stepElapsedMs := r.stepElapsedMs + more))
    decreases r.stepElapsedMs
  {
    hide Table, StepDuration, Consume;
    var later := r.(stepElapsedMs := r.stepElapsedMs + more);
    StepsEnd(r.profile, r.stepIndex, r.cycles);
    ConsumeUnfolds(r);
    if r.stepElapsedMs < StepDuration(Table(r.profile), r.stepIndex, r.cycles) {
      ConsumeIgnoresOutputs(later, Driving(r).motorOn, Driving(r).buzzerOn);
    } else {
      ConsumeUnfolds(later);
      ConsumeResumes(StepDone(r), more);
    }
  }

  /** Ticking depends only on total time, for every run and however long it has run, as long as the sum fits its counter. */
  lemma TicksAdd(r: Run, a: U32, b: U32)
    requires Tickable(r) && r.stepElapsedMs + a + b < WRAP
    ensures Ticked(Ticked(r, a), b) == Ticked(r, a + b)
  {
    hide Table, StepDuration, Consume;
    if !r.finished && r.profile < PROFILE_COUNT {
      if Table(r.profile).loops {
        StepsEnd(r.profile, r.stepIndex, r.cycles);
        ConsumeResumes(r.(stepElapsedMs := r.stepElapsedMs + a), b);
        var c := Ticked(r, a);
        StepsEnd(c.profile, c.stepIndex, c.cycles);
      } else {
        StrictStepsAreContinuous(r.profile, r.cycles);
      }
    }
  }

  const LONGEST_STEP_MS := 30000

  lemma StepsEnd(p: U8, step: nat, cycles: U32)
    requires p < PROFILE_COUNT && Table(p).loops && step < |Table(p).steps|
    ensures 0 < StepDuration(Table(p), step, cycles) <= LONGEST_STEP_MS
  {
  }

  /** Between passes: over, or in a step that has not yet lasted its time. */
  predicate AtRest(r: Run) {
    r.finished || (Alive(r) && (Table(r.profile).loops ==> r.stepElapsedMs < StepDuration(Table(r.profile), r.stepIndex, r.cycles)))
  }

  lemma {:induction false} ConsumeRests(r: Run)
    requires InStep(r) && !r.finished && Table(r.profile).loops
    ensures AtRest(Consume(r))
    decreases r.stepElapsedMs
  {
    hide Table, StepDuration;
    var d := Table(r.profile);
    var dur := StepDuration(d, r.stepIndex, r.cycles);
    StepsEnd(r.profile, r.stepIndex, r.cycles);
    if r.stepElapsedMs >= dur {
      if r.stepIndex + 1 < |d.steps| {
        ConsumeRests(r.(stepElapsedMs := r.stepElapsedMs - dur, stepIndex := r.stepIndex + 1));
      } else {
        ConsumeRests(r.(stepElapsedMs := r.stepElapsedMs - dur, stepIndex := 0, cycles := (r.cycles + 1) % WRAP));
      }
    }
  }

  lemma TickRests(r: Run, dt: U32)
    requires AtRest(r)
    ensures Tickable(r) && AtRest(Ticked(r, dt)) && Ticked(r, 0) == r
  {
    hide Table, StepDuration, Consume;
    if !r.finished {
      TickStaysAlive(r, dt);
      if Table(r.profile).loops {
        StepsEnd(r.profile, r.stepIndex, r.cycles);
        ConsumeRests(r.(stepElapsedMs := (r.stepElapsedMs + dt) % WRAP));
        NothingToConsume(r);
      } else {
        StrictStepsAreContinuous(r.profile, r.cycles);
      }
    }
  }

  lemma NothingToConsume(r: Run)
    requires InStep(r) && r.stepElapsedMs < StepDuration(Table(r.profile), r.stepIndex, r.cycles)
    ensures Consume(r) == Driving(r)
  {
  }

  function TickAll(r: Run, dts: seq<U32>): Run
    requires Tickable(r)
    decreases |dts|
  {
    if dts == [] then r else TickAll(Ticked(r, dts[0]), dts[1..])
  }

  function Sum(dts: seq<U32>): nat {
    if dts == [] then 0 else dts[0] + Sum(dts[1..])
  }

  /** Passes short enough that a step's remainder and the pass fit a 32-bit counter: any but 49-day ones. */
  predicate ShortPasses(dts: seq<U32>) {
    forall i :: 0 <= i < |dts| ==> dts[i] + LONGEST_STEP_MS <= WRAP
  }

  lemma {:induction false} IdlePasses(r: Run, dts: seq<U32>)
    requires AtRest(r) && Tickable(r) && Sum(dts) == 0
    ensures TickAll(r, dts) == r
    decreases |dts|
  {
    hide Ticked, AtRest;
    if dts != [] {
      TickRests(r, 0);
      IdlePasses(r, dts[1..]);
    }
  }

  lemma SplitPass(r: Run, first: U32, whole: U32)
    requires AtRest(r) && first <= whole && whole + LONGEST_STEP_MS <= WRAP
    ensures Tickable(r) && Ticked(Ticked(r, first), whole - first) == Ticked(r, whole)
  {
    hide Ticked, Table, StepDuration;
    TickRests(r, 0);
    if !r.finished && Table(r.profile).loops {
      StepsEnd(r.profile, r.stepIndex, r.cycles);
      TicksAdd(r, first, whole - first);
    } else {
      SteadyTick(r, first);
      SteadyTick(r, whole - first);
      SteadyTick(r, whole);
    }
  }

  lemma SteadyTick(r: Run, dt: U32)
    requires r.finished || (Alive(r) && !Table(r.profile).loops)
    ensures Tickable(r) && Ticked(r, dt) == r
  {
    hide Table, StepDuration;
    if !r.finished {
      StrictStepsAreContinuous(r.profile, r.cycles);
    }
  }

  /**
   However the loop's passes are spaced, the state at a moment is the same: any two ways of cutting the
   same total time into passes end alike, whatever the total, 32-bit wraps of the cycle counter included.
   */
  lemma {:induction false} SpacingDoesNotMatter(r: Run, xs: seq<U32>, ys: seq<U32>)
    requires AtRest(r) && Tickable(r) && ShortPasses(xs) && ShortPasses(ys)
    requires Sum(xs) == Sum(ys)
    ensures TickAll(r, xs) == TickAll(r, ys)
    decreases |xs| + |ys|
  {
    hide Ticked, AtRest;
    if xs == [] {
      IdlePasses(r, ys);
    } else if ys == [] {
      IdlePasses(r, xs);
    } else if xs[0] <= ys[0] {
      CutFirst(r, xs, ys);
    } else {
      CutFirst(r, ys, xs);
    }
  }

  /** The shorter first pass is taken off both. */
  lemma {:induction false} CutFirst(r: Run, xs: seq<U32>, ys: seq<U32>)
    requires AtRest(r) && Tickable(r) && ShortPasses(xs) && ShortPasses(ys)
    requires Sum(xs) == Sum(ys) && xs != [] && ys != [] && xs[0] <= ys[0]
    ensures TickAll(r, xs) == TickAll(r, ys)
    decreases |xs| + |ys|, 0
  {
    hide Ticked, AtRest;
    var x, y := xs[0], ys[0];
    var zs := [y - x] + ys[1..];
    TickRests(r, x);
    SplitPass(r, x, y);
    assert zs[1..] == ys[1..];
    SpacingDoesNotMatter(Ticked(r, x), xs[1..], zs);
  }

  /** From the start of any profile: the timing of the passes is invisible ... */
  lemma SpacingFromTheStart(p: U8, xs: seq<U32>, ys: seq<U32>)
    requires ShortPasses(xs) && ShortPasses(ys) && Sum(xs) == Sum(ys)
    ensures TickAll(Started(p), xs) == TickAll(Started(p), ys)
  {
    hide TickAll;
    SpacingDoesNotMatter(Started(p), xs, ys);
  }

  /** ... and for the first 24 hours the run stands exactly at that total on the profile's timeline. */
  lemma {:induction false} TimelineFromTheStart(p: U8, dts: seq<U32>)
    requires p < PROFILE_COUNT && Sum(dts) < DAY_MS
    ensures Running(TickAll(Started(p), dts), Sum(dts))
  {
    StartsRunning(p);
    RunsOn(Started(p), 0, dts);
  }

  lemma {:induction false} RunsOn(r: Run, elapsed: nat, dts: seq<U32>)
    requires Running(r, elapsed) && Tickable(r) && elapsed + Sum(dts) < DAY_MS
    ensures Running(TickAll(r, dts), elapsed + Sum(dts))
    decreases |dts|
  {
    hide Ticked, Running;
    if dts != [] {
      TickKeepsRunning(r, elapsed, dts[0]);
      RunsOn(Ticked(r, dts[0]), elapsed + dts[0], dts[1..]);
    }
  }

  /**
   The classifier's order on profiles is an order on what they do: a profile that is no weaker drives
   every output the other drives, and its k-th burst comes no later.
   */
  lemma NoWeakerNagsMore(old_: U8, new_: U8, k: nat)
    requires old_ < PROFILE_COUNT && Classify.ProfileNoWeaker(old_, new_)
    ensures Table(old_).steps[0].motorOn ==> Table(new_).steps[0].motorOn
    ensures Table(old_).steps[0].buzzerOn ==> Table(new_).steps[0].buzzerOn
    ensures !Loops(old_) ==> !Loops(new_)
    ensures Loops(old_) && Loops(new_) ==> Wait(new_, k) <= Wait(old_, k) && CycleStart(new_, k) <= CycleStart(old_, k)
  {
    if Loops(old_) && Loops(new_) {
      LowerFloorNagsMore(old_, new_, k);
    }
  }

  lemma {:induction false} LowerFloorNagsMore(old_: U8, new_: U8, k: nat)
    requires Loops(old_) && Loops(new_) && Table(new_).floorMs <= Table(old_).floorMs
    ensures Wait(new_, k) <= Wait(old_, k) && CycleStart(new_, k) <= CycleStart(old_, k)
  {
    hide Table;
    if k > 0 {
      LowerFloorNagsMore(old_, new_, k - 1);
    }
  }
}
