/**
 What holds in every state the enforcement context can reach, in whatever order its entry points are called.
 */
module EnforcementSafety {
  import opened Machine
  import opened Events
  import Profiles
  import opened Proximity
  import opened Enforcement

  /** One call of an entry point, or a measurement the main loop took itself. */
  datatype Entry =
    | EnterWindow(e: Event, utcIn: int, wornNow: bool)
    | ExitWindow
    | Wear(worn: bool, utcWorn: int)
    | Check(utcCheck: int, wifi: bool, ssid: Option<seq<U8>>, docked: bool)
    | Tick(dt: U32)
    | LinkUpdate(obs: Option<Obs>, nowMs: int, utc: int)
    | BurstUpdate(burst: Option<Obs>, atMs: int, utcBurst: int)
    | PollAbstain
    | Measure(m: Measurement)

  function Step(c: Ctx, h: Entry): Ctx
    requires Profiles.Tickable(c.run)
  {
    match h
    case EnterWindow(e, utc, wornNow) => Enter(c, e, utc, wornNow)
    case ExitWindow => Exit(c)
    case Wear(worn, utc) => SetWorn(c, worn, utc)
    case Check(utc, wifi, ssid, docked) => Checked(c, utc, wifi, ssid, docked)
    case Tick(dt) => Ticked(c, dt)
    case LinkUpdate(obs, nowMs, utc) => LinkUpdated(c, obs, nowMs, utc)
    case BurstUpdate(obs, nowMs, utc) => BurstUpdated(c, obs, nowMs, utc)
    case PollAbstain => PollAbstained(c)
    case Measure(m) => c.(prox := Ingested(c.prox, m))
  }

  // ---------------------------------------------------------------------------
  // The invariant
  // ---------------------------------------------------------------------------

  /** The run is this profile's own, and under way; a profile the table does not know stays silent. */
  predicate Punishing(r: Profiles.Run, profile: U8) {
    r.profile == profile && if profile < PROFILE_COUNT then Profiles.Alive(r) else Profiles.Quiet(r)
  }

  /** Met or not enforcing: both outputs off. Unmet: the active event's own profile is running. */
  predicate OutputsFollow(c: Ctx) {
    if c.conditionMet then Profiles.Quiet(c.run)
    else c.active.Some? && Punishing(c.run, c.active.value.profile)
  }

  /** A lost-link grace belongs to a getAway window and lasts ten seconds from the activity before the loss. */
  predicate GraceIsBounded(c: Ctx) {
    c.link.grace ==>
      && c.active.Some? && c.active.value.criteria == CRIT_GET_AWAY
      && c.link.graceDeadlineMs == c.link.graceAfterMs + LINK_LOST_AWAY_MS
  }

  predicate Safe(c: Ctx) {
    && (c.state == Enforcing || c.state == Dormant)
    && (c.state == Enforcing <==> c.active.Some?)
    && !c.phoneUndockLatched
    && (c.graceDeadlineUtc != 0 ==> c.worn)
    && OutputsFollow(c)
    && GraceIsBounded(c)
  }

  lemma SafeIsTickable(c: Ctx)
    requires Safe(c)
    ensures Profiles.Tickable(c.run)
  {
  }

  lemma InitIsSafe()
    ensures Safe(Init())
  {
  }

  lemma StartPunishes(profile: U8)
    ensures Punishing(Profiles.Started(profile), profile)
  {
  }

  lemma CheckKeepsOutputs(c: Ctx, utc: int, wifi: bool, ssid: Option<seq<U8>>, docked: bool)
    requires OutputsFollow(c)
    ensures OutputsFollow(Checked(c, utc, wifi, ssid, docked))
    ensures var d := Checked(c, utc, wifi, ssid, docked);
      d == c.(conditionMet := d.conditionMet, run := d.run, phoneNearSinceUtc := d.phoneNearSinceUtc)
  {
    hide CriterionHolds, PhoneNearSince, Profiles.Started, Profiles.Alive;
    if c.active.Some? {
      StartPunishes(c.active.value.profile);
    }
  }

  lemma ConclusionIsSafe(c: Ctx, utc: int)
    requires Safe(c)
    ensures Safe(ConcludedAway(c, utc)) && !ConcludedAway(c, utc).link.grace
  {
    hide Checked, ForcedAway, OutputsFollow;
    ProxIsIrrelevant(c);
    CheckKeepsOutputs(c.(link := c.link.(grace := false), prox := ForcedAway(c.prox)), utc, false, None, true);
  }

  lemma ProxIsIrrelevant(c: Ctx)
    requires OutputsFollow(c)
    ensures OutputsFollow(c.(link := c.link.(grace := false), prox := ForcedAway(c.prox)))
  {
  }

  /** A grace live after the timers are noted is one of a getAway window that is not met. */
  lemma TimersAreBounded(c: Ctx, o: Obs, nowMs: int)
    requires Safe(c) && c.active.Some?
    ensures GraceIsBounded(c.(link := Timers(c, o, nowMs)))
    ensures Timers(c, o, nowMs).grace ==> !c.conditionMet
  {
  }

  lemma LinkUpdateIsSafe(c: Ctx, obs: Option<Obs>, nowMs: int, utc: int)
    requires Safe(c)
    ensures Safe(LinkUpdated(c, obs, nowMs, utc))
  {
    hide Timers, ConcludedAway, LossIsDue, Disproved, Profiles.Started, Profiles.Alive;
    if Watching(c, obs) {
      var d := c.(link := Timers(c, obs.value, nowMs));
      TimersAreBounded(c, obs.value, nowMs);
      assert Safe(d.(link := d.link.(lossAwayApplied := true)));
      ConclusionIsSafe(d, utc);
      ConclusionIsSafe(d.(link := d.link.(lossAwayApplied := true)), utc);
      StartPunishes(c.active.value.profile);
    }
  }

  lemma BurstUpdateIsSafe(c: Ctx, obs: Option<Obs>, nowMs: int, utc: int)
    requires Safe(c)
    ensures Safe(BurstUpdated(c, obs, nowMs, utc))
  {
    hide Checked, Ingested, Profiles.Alive;
    if Watching(c, obs) {
      var l := Armed(c.link, nowMs);
      var d := c.(link := Counted(l, obs.value), prox := Ingested(c.prox, Reading(obs.value.resultCm)));
      CheckKeepsOutputs(d, utc, false, None, true);
    }
  }

  /** Whatever is called next, the state stays safe. */
  lemma StepIsSafe(c: Ctx, h: Entry)
    requires Safe(c)
    ensures Profiles.Tickable(c.run)
    ensures Safe(Step(c, h))
  {
    hide LinkUpdated, BurstUpdated, Checked, Ingested, Profiles.Started, Profiles.Ticked, Profiles.Alive, Initial;
    SafeIsTickable(c);
    match h
    case Check(utc, wifi, ssid, docked) => CheckKeepsOutputs(c, utc, wifi, ssid, docked);
    case LinkUpdate(obs, nowMs, utc) => LinkUpdateIsSafe(c, obs, nowMs, utc);
    case BurstUpdate(obs, nowMs, utc) => BurstUpdateIsSafe(c, obs, nowMs, utc);
    case Tick(dt) => TickIsSafe(c, dt);
    case _ =>
  }

  lemma TickIsSafe(c: Ctx, dt: U32)
    requires Safe(c)
    ensures Profiles.Tickable(c.run) && Safe(Ticked(c, dt))
  {
    hide Profiles.Ticked, Profiles.Table;
    if !c.conditionMet && c.active.value.profile < PROFILE_COUNT {
      Profiles.TickStaysAlive(c.run, dt);
    } else {
      QuietStaysQuiet(c.run, dt);
    }
  }

  lemma QuietStaysQuiet(r: Profiles.Run, dt: U32)
    requires Profiles.Quiet(r)
    ensures Profiles.Ticked(r, dt) == r
  {
  }

  /** The state after a sequence of calls. */
  function After(c: Ctx, hs: seq<Entry>): (d: Ctx)
    requires Safe(c)
    ensures Safe(d) && Profiles.Tickable(d.run)
    decreases |hs|
  {
    SafeIsTickable(c);
    if hs == [] then c
    else
      var before := After(c, hs[..|hs| - 1]);
      StepIsSafe(before, hs[|hs| - 1]);
      SafeIsTickable(Step(before, hs[|hs| - 1]));
      Step(before, hs[|hs| - 1])
  }

  lemma AfterStep(c: Ctx, hs: seq<Entry>, k: nat)
    requires Safe(c) && k < |hs|
    ensures After(c, hs[..k + 1]) == Step(After(c, hs[..k]), hs[k])
  {
    assert hs[..k + 1][..k] == hs[..k];
  }

  // ---------------------------------------------------------------------------
  // The pins
  // ---------------------------------------------------------------------------

  datatype Pins = Pins(motor: bool, buzzer: bool)

  /** What a pass of the main loop writes to the motor and the buzzer. */
  function PinsOf(c: Ctx): Pins {
    if c.state == Enforcing then Pins(c.run.motorOn && !Silenced(c), c.run.buzzerOn && !Silenced(c))
    else Pins(false, false)
  }

  /** Something is commanded right now: enforcing, unmet, not silenced. */
  predicate MayPunish(c: Ctx) {
    c.state == Enforcing && !c.conditionMet && !Silenced(c)
  }

  /**
   Pins that show the current step of the active event's own profile, and nothing when nothing may punish
   or the profile is not in the table.
   */
  predicate PinsAreRight(c: Ctx, pins: Pins) {
    && (!MayPunish(c) ==> pins == Pins(false, false))
    && (MayPunish(c) && c.active.Some? && c.active.value.profile >= PROFILE_COUNT ==> pins == Pins(false, false))
    && (MayPunish(c) && c.active.Some? && c.active.value.profile < PROFILE_COUNT ==>
          && Profiles.InStep(c.run) && c.run.profile == c.active.value.profile && !c.run.finished
          && var step := Profiles.Table(c.active.value.profile).steps[c.run.stepIndex];
             pins == Pins(step.motorOn, step.buzzerOn))
  }

  lemma SafePinsAreRight(c: Ctx)
    requires Safe(c)
    ensures PinsAreRight(c, PinsOf(c))
    ensures MayPunish(c) ==> c.active.Some?
  {
    hide Profiles.Table;
  }

  /**
   In every reachable state the pins show exactly the current step of the active event's own profile while
   the commitment is enforced, unmet and not silenced, and nothing otherwise.
   */
  lemma PinsFollowThePunishment(hs: seq<Entry>)
    ensures Safe(Init())
    ensures PinsAreRight(After(Init(), hs), PinsOf(After(Init(), hs)))
  {
    hide PinsAreRight;
    InitIsSafe();
    SafePinsAreRight(After(Init(), hs));
  }

  /** A watch that is not worn has no donning grace: nothing but the criterion decides. */
  lemma UnwornHasNoGrace(hs: seq<Entry>, utc: int, wifi: bool, ssid: Option<seq<U8>>, docked: bool)
    ensures Safe(Init())
    ensures var c := After(Init(), hs);
      !c.worn && c.active.Some? ==>
        Checked(c, utc, wifi, ssid, docked).conditionMet == CriterionHolds(c, c.active.value, utc, wifi, ssid, docked)
  {
    hide CriterionHolds, PhoneNearSince, OutputsFollow;
    InitIsSafe();
  }
}
