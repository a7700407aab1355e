/**
 One pass of the watch's main loop, as the order in which it calls the enforcement context, and the pins
 it writes: main.c:1396-1594 and the worn sampling after it.
 */
module MainLoop {
  import opened Machine
  import opened Events
  import opened Proximity
  import opened Enforcement
  import opened EnforcementSafety
  import LostLink
  import Profiles

  /** How the event in force compares with the one being enforced. */
  datatype Refresh = Same | Ended | Began(e: Event)

  /** Everything a pass takes from outside: clocks, the day plan's answer, the radio, the worn sensor. */
  datatype Pass = Pass(
    refresh: Refresh,
    pollForced: bool,
    nowMs: int,
    utc: int,
    dt: U32,
    pollObs: Obs,
    measurement: Measurement,
    obs: Obs,
    wornChange: Option<bool>
  )

  datatype Loop = Loop(ctx: Ctx, forcePoll: bool, lastPollMs: int, pins: Pins)

  function RefreshCalls(c: Ctx, p: Pass): seq<Entry> {
    match p.refresh
    case Same => []
    case Ended => [ExitWindow]
    case Began(e) => [EnterWindow(e, p.utc, c.worn)]
  }

  function PollCalls(c: Ctx, p: Pass): seq<Entry> {
    (if c.active.Some? && IsAnchorBased(c.active.value.criteria)
     then [if p.pollObs.known then PollAbstain else Measure(p.measurement)]
     else [])
    + [Check(p.utc, false, None, true)]
  }

  function OutputCalls(p: Pass): seq<Entry> {
    [BurstUpdate(Some(p.obs), p.nowMs, p.utc), LinkUpdate(Some(p.obs), p.nowMs, p.utc), Tick(p.dt)]
  }

  function WornCalls(p: Pass): seq<Entry> {
    if p.wornChange.Some? then [Wear(p.wornChange.value, p.utc)] else []
  }

  predicate PollIsDue(c: Ctx, forced: bool, lastPollMs: int, p: Pass) {
    c.state == Enforcing && (forced || p.nowMs - lastPollMs >= PollIntervalS(c) * 1000)
  }

  function Refreshed(l: Loop, p: Pass): (r: Loop)
    requires Safe(l.ctx)
    ensures Safe(r.ctx)
  {
    l.(ctx := After(l.ctx, RefreshCalls(l.ctx, p)),
       forcePoll := l.forcePoll || p.pollForced || p.refresh.Began?,
       pins := if p.refresh.Ended? then Pins(false, false) else l.pins)
  }

  function Polled(l: Loop, p: Pass): (r: Loop)
    requires Safe(l.ctx)
    ensures Safe(r.ctx)
  {
    if PollIsDue(l.ctx, l.forcePoll, l.lastPollMs, p) then
      l.(ctx := After(l.ctx, PollCalls(l.ctx, p)), forcePoll := false, lastPollMs := p.nowMs)
    else l
  }

  function Driven(l: Loop, p: Pass): (r: Loop)
    requires Safe(l.ctx)
    ensures Safe(r.ctx)
  {
    var c := if l.ctx.state == Enforcing then After(l.ctx, OutputCalls(p)) else l.ctx;
    l.(ctx := c, pins := PinsOf(c))
  }

  function Sensed(l: Loop, p: Pass): (r: Loop)
    requires Safe(l.ctx)
    ensures Safe(r.ctx)
  {
    l.(ctx := After(l.ctx, WornCalls(p)), forcePoll := l.forcePoll || p.wornChange.Some?)
  }

  function AfterPass(l: Loop, p: Pass): (r: Loop)
    requires Safe(l.ctx)
    ensures Safe(r.ctx)
  {
    Sensed(Driven(Polled(Refreshed(l, p), p), p), p)
  }

  // ---------------------------------------------------------------------------
  // A pass is one of the interleavings
  // ---------------------------------------------------------------------------

  lemma {:induction false} AfterConcat(c: Ctx, a: seq<Entry>, b: seq<Entry>)
    requires Safe(c)
    ensures After(c, a + b) == After(After(c, a), b)
    decreases |b|
  {
    hide Safe, Step;
    if b == [] {
      assert a + b == a;
    } else {
      var n := |b| - 1;
      AfterConcat(c, a, b[..n]);
      AfterStep(c, a + b, |a| + n);
      AfterStep(After(c, a), b, n);
      assert (a + b)[..|a| + n] == a + b[..n] && (a + b)[..|a| + n + 1] == a + b && b[..n + 1] == b;
    }
  }

  lemma OneCall(c: Ctx, h: Entry)
    requires Safe(c)
    ensures Profiles.Tickable(c.run) && Safe(Step(c, h)) && After(c, [h]) == Step(c, h)
  {
    hide Safe, Step;
    StepIsSafe(c, h);
    assert [h][..0] == [];
  }

  /** The calls a pass makes, in order. */
  function Calls(l: Loop, p: Pass): seq<Entry>
    requires Safe(l.ctx)
  {
    var r := Refreshed(l, p);
    var q := Polled(r, p);
    RefreshCalls(l.ctx, p)
    + (if PollIsDue(r.ctx, r.forcePoll, r.lastPollMs, p) then PollCalls(r.ctx, p) else [])
    + (if q.ctx.state == Enforcing then OutputCalls(p) else [])
    + WornCalls(p)
  }

  lemma PassIsCalls(l: Loop, p: Pass)
    requires Safe(l.ctx)
    ensures AfterPass(l, p).ctx == After(l.ctx, Calls(l, p))
  {
    hide Safe, After, RefreshCalls, PollCalls, OutputCalls, WornCalls, PollIsDue;
    var r := Refreshed(l, p);
    var q := Polled(r, p);
    var d := Driven(q, p);
    var a := RefreshCalls(l.ctx, p);
    var b := if PollIsDue(r.ctx, r.forcePoll, r.lastPollMs, p) then PollCalls(r.ctx, p) else [];
    var o := if q.ctx.state == Enforcing then OutputCalls(p) else [];
    NoMoreCalls(r.ctx);
    NoMoreCalls(q.ctx);
    AfterConcat(l.ctx, a, b);
    AfterConcat(l.ctx, a + b, o);
    AfterConcat(l.ctx, a + b + o, WornCalls(p));
  }

  lemma NoMoreCalls(c: Ctx)
    requires Safe(c)
    ensures After(c, []) == c
  {
  }

  // ---------------------------------------------------------------------------
  // Whole runs of the loop
  // ---------------------------------------------------------------------------

  function Boot(lastPollMs: int): (l: Loop)
    ensures Safe(l.ctx)
  {
    InitIsSafe();
    Loop(Init(), false, lastPollMs, Pins(false, false))
  }

  function Loops(l: Loop, ps: seq<Pass>): (r: Loop)
    requires Safe(l.ctx)
    ensures Safe(r.ctx)
    decreases |ps|
  {
    if ps == [] then l else AfterPass(Loops(l, ps[..|ps| - 1]), ps[|ps| - 1])
  }

  function AllCalls(l: Loop, ps: seq<Pass>): seq<Entry>
    requires Safe(l.ctx)
    decreases |ps|
  {
    if ps == [] then []
    else AllCalls(l, ps[..|ps| - 1]) + Calls(Loops(l, ps[..|ps| - 1]), ps[|ps| - 1])
  }

  /** A run of the loop is a run of calls, so whatever is proved of every run of calls holds of the loop. */
  lemma {:induction false} LoopsAreCalls(l: Loop, ps: seq<Pass>)
    requires Safe(l.ctx)
    ensures Loops(l, ps).ctx == After(l.ctx, AllCalls(l, ps))
    decreases |ps|
  {
    hide Safe, After, AfterPass, Calls;
    NoMoreCalls(l.ctx);
    if ps != [] {
      var front := ps[..|ps| - 1];
      LoopsAreCalls(l, front);
      PassIsCalls(Loops(l, front), ps[|ps| - 1]);
      AfterConcat(l.ctx, AllCalls(l, front), Calls(Loops(l, front), ps[|ps| - 1]));
    }
  }

  /** The three output calls, one at a time; none of them opens or closes a window. */
  lemma OutputKeepsState(c: Ctx, p: Pass)
    requires Safe(c)
    ensures After(c, OutputCalls(p)).state == c.state
  {
    hide Safe, LinkUpdated, BurstUpdated, After;
    var b, k, t := BurstUpdate(Some(p.obs), p.nowMs, p.utc), LinkUpdate(Some(p.obs), p.nowMs, p.utc), Tick(p.dt);
    OneCall(c, b);
    OneCall(Step(c, b), k);
    OneCall(Step(Step(c, b), k), t);
    AfterConcat(c, [b], [k]);
    AfterConcat(c, [b, k], [t]);
    assert [b] + [k] == [b, k] && [b, k] + [t] == OutputCalls(p);
    LostLink.BurstKeepsTimers(c, Some(p.obs), p.nowMs, p.utc);
    LostLink.UpdateSetsTimers(Step(c, b), Some(p.obs), p.nowMs, p.utc);
  }

  lemma WornKeepsPins(c: Ctx, p: Pass)
    requires Safe(c)
    ensures PinsOf(After(c, WornCalls(p))) == PinsOf(c)
  {
    hide Safe, Step;
    NoMoreCalls(c);
    if p.wornChange.Some? {
      OneCall(c, Wear(p.wornChange.value, p.utc));
      WearKeepsPins(c, p.wornChange.value, p.utc);
    }
  }

  lemma WearKeepsPins(c: Ctx, worn: bool, utc: int)
    requires Profiles.Tickable(c.run)
    ensures PinsOf(Step(c, Wear(worn, utc))) == PinsOf(c)
  {
  }

  /** After any run of passes since boot, whatever the inputs, the motor and buzzer pins are right. */
  lemma {:induction false} PinsAreAlwaysRight(lastPollMs: int, ps: seq<Pass>)
    ensures var l := Loops(Boot(lastPollMs), ps); PinsAreRight(l.ctx, l.pins)
    decreases |ps|
  {
    hide Safe, After, PinsAreRight, WornCalls, OutputCalls, Polled, Refreshed;
    var l := Loops(Boot(lastPollMs), ps);
    SafePinsAreRight(l.ctx);
    if ps != [] {
      var p := ps[|ps| - 1];
      var d := Driven(Polled(Refreshed(Loops(Boot(lastPollMs), ps[..|ps| - 1]), p), p), p);
      WornKeepsPins(d.ctx, p);
    }
  }

  // ---------------------------------------------------------------------------
  // The loop as the firmware runs it
  // ---------------------------------------------------------------------------

  class Firmware {
    const enf: Context
    var forcePoll: bool
    var lastPollMs: int
    var motor: bool
    var buzzer: bool

    function View(): Loop
      reads this, enf, enf.profileRun, enf.prox, enf.link
    {
      Loop(enf.View(), forcePoll, lastPollMs, Pins(motor, buzzer))
    }

    constructor (nowMs: int)
      ensures View() == Boot(nowMs)
    {
      enf := new Context();
      forcePoll, lastPollMs, motor, buzzer := false, nowMs, false, false;
    }

    /** refresh_active_event. */
    method Refresh(p: Pass)
      requires Safe(enf.View())
      modifies this, enf, enf.profileRun, enf.prox, enf.link
      ensures View() == Refreshed(old(View()), p)
    {
      hide Safe, Enter, Exit, LinkTimers.View, ProxState.View, Profiles.ProfileRun.View;
      NoMoreCalls(enf.View());
      if p.pollForced {
        forcePoll := true;
      }
      match p.refresh
      case Same =>
      case Ended =>
        OneCall(enf.View(), ExitWindow);
        enf.ExitWindow();
        motor := false;
        buzzer := false;
      case Began(e) =>
        OneCall(enf.View(), EnterWindow(e, p.utc, enf.View().worn));
        enf.EnterWindow(e, p.utc, enf.worn);
        forcePoll := true;
    }

    /** The enforcement poll: an abstention or a measurement, then a check. */
    method Poll(p: Pass)
      requires Safe(enf.View())
      modifies this, enf, enf.profileRun, enf.prox, enf.link
      ensures View() == Polled(old(View()), p)
    {
      hide Safe, After, PollCalls, PollIntervalS, LinkTimers.View, ProxState.View, Profiles.ProfileRun.View;
      if enf.state == Enforcing {
        var interval: int := PollIntervalS(enf.View());
        if forcePoll || p.nowMs - lastPollMs >= interval * 1000 {
          forcePoll := false;
          lastPollMs := p.nowMs;
          MeasureAndCheck(p);
        }
      }
    }

    method MeasureAndCheck(p: Pass)
      requires Safe(enf.View())
      modifies enf, enf.profileRun, enf.prox, enf.link
      ensures enf.View() == After(old(enf.View()), PollCalls(old(enf.View()), p))
    {
      hide Safe, Checked, PollAbstained, Ingested, LinkTimers.View, ProxState.View, Profiles.ProfileRun.View;
      ghost var c := enf.View();
      ghost var calls: seq<Entry> := [];
      NoMoreCalls(c);
      if enf.active.Some? && IsAnchorBased(enf.active.value.criteria) {
        if p.pollObs.known {
          calls := [PollAbstain];
          enf.PollAbstainIfIdle();
        } else {
          calls := [Measure(p.measurement)];
          enf.prox.Ingest(p.measurement);
        }
        OneCall(c, calls[0]);
      }
      AfterConcat(c, calls, [Check(p.utc, false, None, true)]);
      OneCall(enf.View(), Check(p.utc, false, None, true));
      var _ := enf.CheckCondition(p.utc, false, None, true);
    }

    /** Bursts, the lost-link rule, the profile tick, and the pins. */
    method Drive(p: Pass)
      requires Safe(enf.View())
      modifies this, enf, enf.profileRun, enf.prox, enf.link
      ensures View() == Driven(old(View()), p)
    {
      hide Safe, After, OutputCalls, ProxState.View;
      if enf.state == Enforcing {
        Output(p);
        var silenced := enf.state == Enforcing && enf.link.grace;
        OutputKeepsState(old(enf.View()), p);
        motor := enf.profileRun.motorOn && !silenced;
        buzzer := enf.profileRun.buzzerOn && !silenced;
      } else {
        motor := false;
        buzzer := false;
      }
    }

    method Output(p: Pass)
      requires Safe(enf.View())
      modifies enf, enf.profileRun, enf.prox, enf.link
      ensures enf.View() == After(old(enf.View()), OutputCalls(p))
    {
      hide Safe, LinkUpdated, BurstUpdated, Ticked, LinkTimers.View, ProxState.View, Profiles.ProfileRun.View;
      ghost var c := enf.View();
      var b, k, t := BurstUpdate(Some(p.obs), p.nowMs, p.utc), LinkUpdate(Some(p.obs), p.nowMs, p.utc), Tick(p.dt);
      OneCall(c, b);
      AfterConcat(c, [b], [k]);
      AfterConcat(c, [b, k], [t]);
      assert [b] + [k] == [b, k] && [b, k] + [t] == OutputCalls(p);
      var _ := enf.BurstUpdate(Some(p.obs), p.nowMs, p.utc);
      OneCall(enf.View(), k);
      enf.LinkUpdate(Some(p.obs), p.nowMs, p.utc);
      OneCall(enf.View(), t);
      var _ := enf.Tick(p.dt);
    }

    /** The worn sensor's edge, if there was one. */
    method Sense(p: Pass)
      requires Safe(enf.View())
      modifies this, enf
      ensures View() == Sensed(old(View()), p)
    {
      hide Safe, SetWorn, LinkTimers.View, ProxState.View, Profiles.ProfileRun.View;
      NoMoreCalls(enf.View());
      if p.wornChange.Some? {
        OneCall(enf.View(), Wear(p.wornChange.value, p.utc));
        enf.Wear(p.wornChange.value, p.utc);
        forcePoll := true;
      }
    }

    /** One pass of the loop. */
    method RunPass(p: Pass)
      requires Safe(enf.View())
      modifies this, enf, enf.profileRun, enf.prox, enf.link
      ensures View() == AfterPass(old(View()), p)
    {
      hide Safe, Context.View, Refreshed, Polled, Sensed, After;
      Refresh(p);
      Poll(p);
      Drive(p);
      Sense(p);
    }
  }
}
