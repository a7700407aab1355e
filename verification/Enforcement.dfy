/**
 The enforcement context: the window in force, whether its criterion is met, what drives the motor and the
 buzzer, and the timers around them. Each entry point is a function on values here, and a method of the
 class below, which keeps the state the way the firmware does, is proved equal to it.
 */
module Enforcement {
  import opened Machine
  import opened Events
  import Profiles
  import opened Proximity

  const PHONE_AWAY_TOLERANCE_S := 60
  const POLL_NOT_MET_S: U32 := 60
  const POLL_MET_S: U32 := 180
  const POLL_ABSTAIN_S: U32 := 10
  const LINK_LOST_DETECT_MS := 1200
  const LINK_LOST_AWAY_MS := 10000
  const LINK_GRACE_COOLDOWN_MS := 120000

  datatype State = Unpaired | Dormant | DormantSleep | Enforcing

  /** The lost-link timers and the per-burst dwell; uptime milliseconds. */
  datatype Link = Link(
    armed: bool,
    windowStartMs: int,
    lossActivityMs: int,
    lossAwayApplied: bool,
    grace: bool,
    graceAfterMs: int,
    graceDeadlineMs: int,
    cooldownUntilMs: int,
    burstLastMs: int,
    burstsSincePoll: U16
  )

  datatype Ctx = Ctx(
    state: State,
    active: Option<Event>,
    conditionMet: bool,
    worn: bool,
    run: Profiles.Run,
    prox: Prox,
    donnedAtUtc: int,
    graceDeadlineUtc: int,
    phoneNearSinceUtc: int,
    phoneUndockLatched: bool,
    link: Link
  )

  /** What the radio says about the ranging link. */
  datatype Obs = Obs(
    known: bool,
    activitySeen: bool,
    lastActivityMs: int,
    haveResult: bool,
    resultMs: int,
    resultCm: U32
  )

  function NoLink(): Link {
    Link(false, 0, 0, false, false, 0, 0, 0, 0, 0)
  }

  // ---------------------------------------------------------------------------
  // Entering, leaving, wearing
  // ---------------------------------------------------------------------------

  function Init(): Ctx {
    Ctx(Dormant, None, true, false, Profiles.Run(0, 0, 0, 0, false, false, true),
        Prox(ZeroUuid(), Near, 0, 0, 0, false, 0, 0), 0, 0, 0, false, NoLink())
  }

  function AnchorOf(e: Event): Option<Uuid> {
    if e.hasAnchorId then Some(e.anchorId) else None
  }

  function Enter(c: Ctx, e: Event, utc: int, worn: bool): Ctx {
    var graced := e.donningGraceS > 0 && worn;
    c.(state := Enforcing, active := Some(e), worn := worn, phoneNearSinceUtc := 0, phoneUndockLatched := false,
       link := NoLink(),
       prox := if IsAnchorBased(e.criteria) then Initial(AnchorOf(e), 0, 0) else c.prox,
       donnedAtUtc := if graced then utc else 0,
       graceDeadlineUtc := if graced then utc + e.donningGraceS else 0,
       conditionMet := true, run := Profiles.Stopped(c.run))
  }

  function Exit(c: Ctx): Ctx {
    c.(state := Dormant, active := None, conditionMet := true, link := NoLink(), run := Profiles.Stopped(c.run))
  }

  function SetWorn(c: Ctx, worn: bool, utc: int): Ctx {
    var donned := !c.worn && worn && c.active.Some? && c.active.value.donningGraceS > 0;
    c.(worn := worn,
       donnedAtUtc := if donned then utc else c.donnedAtUtc,
       graceDeadlineUtc := if donned then utc + c.active.value.donningGraceS
                           else if c.worn && !worn then 0
                           else c.graceDeadlineUtc)
  }

  // ---------------------------------------------------------------------------
  // The criterion
  // ---------------------------------------------------------------------------

  /** The bytes strncmp compares: up to the terminator, and at most `max` of them. */
  function Text(bytes: seq<U8>, max: nat): (t: seq<U8>)
    ensures |t| <= max
    decreases max
  {
    if bytes == [] || max == 0 || bytes[0] == 0 then [] else [bytes[0]] + Text(bytes[1..], max - 1)
  }

  predicate SsidMatches(e: Event, ssid: Option<seq<U8>>) {
    ssid.Some? && e.ssidLen != 0 && Text(e.wifiSsid, MAX_SSID_LEN) == Text(ssid.value, MAX_SSID_LEN)
  }

  predicate InDonningGrace(c: Ctx, utc: int) {
    c.graceDeadlineUtc != 0 && utc < c.graceDeadlineUtc
  }

  /** The ranging link cannot say where the phone is. */
  predicate PhoneUnknown(c: Ctx) {
    InFailsafe(c.prox) || !c.prox.haveVerdict
  }

  predicate PhoneNear(c: Ctx, docked: bool) {
    !docked || c.phoneUndockLatched || c.prox.verdict == Near
  }

  /** Since when the phone has been near, once this check has looked. */
  function PhoneNearSince(c: Ctx, utc: int, docked: bool): int {
    if PhoneUnknown(c) || !PhoneNear(c, docked) then 0
    else if c.phoneNearSinceUtc == 0 then utc
    else c.phoneNearSinceUtc
  }

  predicate PhoneAwayMet(c: Ctx, utc: int, docked: bool) {
    || PhoneUnknown(c)
    || !PhoneNear(c, docked)
    || utc - PhoneNearSince(c, utc, docked) < PHONE_AWAY_TOLERANCE_S
  }

  predicate CriterionHolds(c: Ctx, e: Event, utc: int, wifi: bool, ssid: Option<seq<U8>>, docked: bool) {
    if e.criteria == CRIT_GET_ON_WIFI then wifi && SsidMatches(e, ssid)
    else if e.criteria == CRIT_GET_OFF_WIFI then !wifi || !SsidMatches(e, ssid)
    else if e.criteria == CRIT_STAY_NEAR || e.criteria == CRIT_GET_AWAY then CriterionMet(c.prox, e.criteria)
    else if e.criteria == CRIT_PHONE_AWAY then PhoneAwayMet(c, utc, docked)
    else true
  }

  /** The single exit of every check: output stops on becoming met, and starts afresh on becoming unmet. */
  function Settle(c: Ctx, met: bool): Ctx
    requires met || c.active.Some?
  {
    c.(conditionMet := met,
       run := if met == c.conditionMet then c.run
              else if met then Profiles.Stopped(c.run)
              else Profiles.Started(c.active.value.profile))
  }

  function Checked(c: Ctx, utc: int, wifi: bool, ssid: Option<seq<U8>>, docked: bool): Ctx {
    if c.active == None || InDonningGrace(c, utc) then Settle(c, true)
    else
      var e := c.active.value;
      var since := if e.criteria == CRIT_PHONE_AWAY then PhoneNearSince(c, utc, docked) else c.phoneNearSinceUtc;
      Settle(c.(phoneNearSinceUtc := since), CriterionHolds(c, e, utc, wifi, ssid, docked))
  }

  function Ticked(c: Ctx, dt: U32): Ctx
    requires Profiles.Tickable(c.run)
  {
    if c.state != Enforcing || c.conditionMet then c else c.(run := Profiles.Ticked(c.run, dt))
  }

  function PollIntervalS(c: Ctx): U32 {
    if !c.prox.haveVerdict then POLL_NOT_MET_S
    else if !c.conditionMet && c.prox.abstainRun > 0 then POLL_ABSTAIN_S
    else if c.conditionMet then POLL_MET_S
    else POLL_NOT_MET_S
  }

  predicate Silenced(c: Ctx) {
    c.state == Enforcing && c.link.grace
  }

  // ---------------------------------------------------------------------------
  // The lost-link rule
  // ---------------------------------------------------------------------------

  /** The window is one that ranging decides, and the radio reports on its link. */
  predicate Watching(c: Ctx, obs: Option<Obs>) {
    && c.state == Enforcing && c.active.Some? && IsAnchorBased(c.active.value.criteria)
    && obs.Some? && obs.value.known
  }

  function Armed(l: Link, nowMs: int): Link {
    if l.armed then l else l.(armed := true, windowStartMs := nowMs)
  }

  /** There was radio activity in this window. */
  predicate Seen(l: Link, o: Obs) {
    o.activitySeen && o.lastActivityMs >= l.windowStartMs
  }

  predicate Lost(l: Link, o: Obs, nowMs: int) {
    Seen(l, o) && nowMs - o.lastActivityMs >= LINK_LOST_DETECT_MS
  }

  /** A link newly found lost while getAway is punishing, with no grace in the last two minutes. */
  predicate OpensGrace(l: Link, criterion: U8, met: bool, o: Obs, nowMs: int) {
    && Lost(l, o, nowMs)
    && l.lossActivityMs != o.lastActivityMs
    && criterion == CRIT_GET_AWAY && !met && !l.grace
    && nowMs >= l.cooldownUntilMs
  }

  /** A window in which the criterion is met has nothing to silence. */
  function Cleared(l: Link, met: bool): Link {
    if met then l.(grace := false) else l
  }

  /** The timers once a pass has looked at the link. */
  function Noted(l: Link, criterion: U8, met: bool, o: Obs, nowMs: int): Link {
    if !Lost(l, o, nowMs) then l.(lossActivityMs := 0)
    else if l.lossActivityMs == o.lastActivityMs then l
    else if !OpensGrace(l, criterion, met, o, nowMs) then l.(lossActivityMs := o.lastActivityMs, lossAwayApplied := false)
    else
      l.(lossActivityMs := o.lastActivityMs, lossAwayApplied := false,
         grace := true, graceAfterMs := o.lastActivityMs,
         graceDeadlineMs := o.lastActivityMs + LINK_LOST_AWAY_MS,
         cooldownUntilMs := nowMs + LINK_GRACE_COOLDOWN_MS)
  }

  /** What the timers are when the link update has armed, cleared and noted. */
  function Timers(c: Ctx, o: Obs, nowMs: int): Link
    requires c.active.Some?
  {
    Noted(Cleared(Armed(c.link, nowMs), c.conditionMet), c.active.value.criteria, c.conditionMet, o, nowMs)
  }

  /** The loss has lasted ten seconds and has not been concluded yet. */
  predicate LossIsDue(l: Link, o: Obs, nowMs: int) {
    Lost(l, o, nowMs) && !l.lossAwayApplied && nowMs - l.lossActivityMs >= LINK_LOST_AWAY_MS
  }

  /** A burst completed after the loss measured the user too near. */
  predicate Disproved(c: Ctx, l: Link, o: Obs) {
    o.haveResult && o.resultMs > l.graceAfterMs && o.resultCm <= c.prox.awayEnterCm
  }

  function ConcludedAway(c: Ctx, utc: int): Ctx {
    Checked(c.(link := c.link.(grace := false), prox := ForcedAway(c.prox)), utc, false, None, true)
  }

  /** What a link update does once its timers are up to date. */
  function Acted(c: Ctx, o: Obs, nowMs: int, utc: int): Ctx
    requires c.active.Some?
  {
    if LossIsDue(c.link, o, nowMs) then ConcludedAway(c.(link := c.link.(lossAwayApplied := true)), utc)
    else if !c.link.grace then c
    else if Disproved(c, c.link, o) then
      c.(link := c.link.(grace := false), run := Profiles.Started(c.active.value.profile))
    else if nowMs >= c.link.graceDeadlineMs then ConcludedAway(c, utc)
    else c
  }

  function LinkUpdated(c: Ctx, obs: Option<Obs>, nowMs: int, utc: int): Ctx {
    if !Watching(c, obs) then c.(link := c.link.(grace := false))
    else Acted(c.(link := Timers(c, obs.value, nowMs)), obs.value, nowMs, utc)
  }

  // ---------------------------------------------------------------------------
  // Bursts
  // ---------------------------------------------------------------------------

  /** A burst of this window that has not been counted yet. */
  predicate NewBurst(l: Link, o: Obs) {
    o.haveResult && o.resultMs >= l.windowStartMs && o.resultMs > l.burstLastMs
  }

  function Reading(cm: U32): Measurement {
    Measurement(CsOk, cm, 0, 0)
  }

  function Abstention(): Measurement {
    Measurement(FailProcedure, 0, 0, 0)
  }

  function Counted(l: Link, o: Obs): Link {
    l.(burstLastMs := o.resultMs, burstsSincePoll := if l.burstsSincePoll < U16_MAX then l.burstsSincePoll + 1 else l.burstsSincePoll)
  }

  function BurstUpdated(c: Ctx, obs: Option<Obs>, nowMs: int, utc: int): Ctx {
    if !Watching(c, obs) then c
    else
      var o, l := obs.value, Armed(c.link, nowMs);
      if !NewBurst(l, o) then c.(link := l)
      else Checked(c.(link := Counted(l, o), prox := Ingested(c.prox, Reading(o.resultCm))), utc, false, None, true)
  }

  function PollAbstained(c: Ctx): Ctx {
    c.(link := c.link.(burstsSincePoll := 0),
       prox := if c.link.burstsSincePoll == 0 then Ingested(c.prox, Abstention()) else c.prox)
  }

  // ---------------------------------------------------------------------------
  // The context as the firmware keeps it
  // ---------------------------------------------------------------------------

  /** The link_* and burst_* fields of the context. */
  class LinkTimers {
    var armed: bool
    var windowStartMs: int
    var lossActivityMs: int
    var lossAwayApplied: bool
    var grace: bool
    var graceAfterMs: int
    var graceDeadlineMs: int
    var cooldownUntilMs: int
    var burstLastMs: int
    var burstsSincePoll: U16

    function View(): Link
      reads this
    {
      Link(armed, windowStartMs, lossActivityMs, lossAwayApplied, grace, graceAfterMs,
           graceDeadlineMs, cooldownUntilMs, burstLastMs, burstsSincePoll)
    }

    constructor ()
      ensures View() == NoLink()
    {
      armed, windowStartMs, lossActivityMs, lossAwayApplied := false, 0, 0, false;
      grace, graceAfterMs, graceDeadlineMs, cooldownUntilMs := false, 0, 0, 0;
      burstLastMs, burstsSincePoll := 0, 0;
    }

    /** link_reset. */
    method Reset()
      modifies this
      ensures View() == NoLink()
    {
      armed := false;
      windowStartMs := 0;
      lossActivityMs := 0;
      lossAwayApplied := false;
      grace := false;
      graceAfterMs := 0;
      graceDeadlineMs := 0;
      cooldownUntilMs := 0;
      burstLastMs := 0;
      burstsSincePoll := 0;
    }

    /** link_arm. */
    method Arm(nowMs: int)
      modifies this
      ensures View() == Armed(old(View()), nowMs)
    {
      if !armed {
        armed := true;
        windowStartMs := nowMs;
      }
    }

    /** The part of the link update that records losses and opens graces. */
    method Note(criterion: U8, met: bool, o: Obs, nowMs: int) returns (lost: bool)
      modifies this
      ensures View() == Noted(old(View()), criterion, met, o, nowMs)
      ensures lost == Lost(View(), o, nowMs)
    {
      var seen := o.activitySeen && o.lastActivityMs >= windowStartMs;
      lost := seen && nowMs - o.lastActivityMs >= LINK_LOST_DETECT_MS;
      if lost {
        if lossActivityMs != o.lastActivityMs {
          lossActivityMs := o.lastActivityMs;
          lossAwayApplied := false;
          if criterion == CRIT_GET_AWAY && !met && !grace && nowMs >= cooldownUntilMs {
            grace := true;
            graceAfterMs := o.lastActivityMs;
            graceDeadlineMs := o.lastActivityMs + LINK_LOST_AWAY_MS;
            cooldownUntilMs := nowMs + LINK_GRACE_COOLDOWN_MS;
          }
        }
      } else {
        lossActivityMs := 0;
      }
    }

    method Count(resultMs: int)
      modifies this
      ensures View() == old(View()).(burstLastMs := resultMs,
        burstsSincePoll := if old(burstsSincePoll) < U16_MAX then old(burstsSincePoll) + 1 else U16_MAX)
    {
      burstLastMs := resultMs;
      if burstsSincePoll < U16_MAX {
        burstsSincePoll := burstsSincePoll + 1;
      }
    }
  }

  class Context {
    var state: State
    var active: Option<Event>
    var conditionMet: bool
    var worn: bool
    const profileRun: Profiles.ProfileRun
    const prox: ProxState
    var donnedAtUtc: int
    var graceDeadlineUtc: int
    var phoneNearSinceUtc: int
    var phoneUndockLatched: bool
    const link: LinkTimers

    function View(): Ctx
      reads this, profileRun, prox, link
    {
      Ctx(state, active, conditionMet, worn, profileRun.View(), prox.View(), donnedAtUtc, graceDeadlineUtc,
          phoneNearSinceUtc, phoneUndockLatched, link.View())
    }

    /** impulse_enforcement_init. */
    constructor ()
      ensures View() == Init()
      ensures fresh(profileRun) && fresh(prox) && fresh(link)
    {
      state, active, conditionMet, worn := Dormant, None, true, false;
      profileRun := new Profiles.ProfileRun();
      prox := new ProxState();
      link := new LinkTimers();
      donnedAtUtc, graceDeadlineUtc, phoneNearSinceUtc, phoneUndockLatched := 0, 0, 0, false;
      new;
      profileRun.Stop();
    }

    /** impulse_enforcement_enter. */
    method EnterWindow(e: Event, utc: int, wornNow: bool)
      modifies this, profileRun, prox, link
      ensures View() == Enter(old(View()), e, utc, wornNow)
    {
      hide Initial, LinkTimers.View, ProxState.View, Profiles.ProfileRun.View;
      state := Enforcing;
      active := Some(e);
      worn := wornNow;
      phoneNearSinceUtc := 0;
      phoneUndockLatched := false;
      link.Reset();
      if IsAnchorBased(e.criteria) {
        prox.Init(AnchorOf(e), 0, 0);
      }
      OpenDonningGrace(e, utc, wornNow);
      conditionMet := true;
      profileRun.Stop();
    }

    /** The donning grace a window opens with. */
    method OpenDonningGrace(e: Event, utc: int, wornNow: bool)
      modifies this
      ensures View() == old(View()).(donnedAtUtc := if e.donningGraceS > 0 && wornNow then utc else 0,
                                     graceDeadlineUtc := if e.donningGraceS > 0 && wornNow then utc + e.donningGraceS else 0)
    {
      hide LinkTimers.View, ProxState.View, Profiles.ProfileRun.View;
      if e.donningGraceS > 0 && wornNow {
        donnedAtUtc := utc;
        graceDeadlineUtc := utc + e.donningGraceS;
      } else {
        donnedAtUtc := 0;
        graceDeadlineUtc := 0;
      }
    }

    /** impulse_enforcement_exit. */
    method ExitWindow()
      modifies this, profileRun, link
      ensures View() == Exit(old(View()))
    {
      hide LinkTimers.View, ProxState.View, Profiles.ProfileRun.View;
      state := Dormant;
      active := None;
      conditionMet := true;
      link.Reset();
      profileRun.Stop();
    }

    /** impulse_enforcement_set_worn. */
    method Wear(wornNow: bool, utc: int)
      modifies this
      ensures View() == SetWorn(old(View()), wornNow, utc)
    {
      hide LinkTimers.View, ProxState.View, Profiles.ProfileRun.View;
      var was := worn;
      worn := wornNow;
      if !was && wornNow && active.Some? && active.value.donningGraceS > 0 {
        donnedAtUtc := utc;
        graceDeadlineUtc := utc + active.value.donningGraceS;
      }
      if was && !wornNow {
        graceDeadlineUtc := 0;
      }
    }

    /** settle. */
    method SettleTo(met: bool) returns (r: bool)
      requires met || active.Some?
      modifies this, profileRun
      ensures View() == Settle(old(View()), met) && r == met
    {
      hide LinkTimers.View, ProxState.View, Profiles.ProfileRun.View;
      if met != conditionMet {
        if met {
          profileRun.Stop();
        } else {
          profileRun.Start(active.value.profile);
        }
      }
      conditionMet := met;
      return met;
    }

    /** The phoneAway case of the check: what it decides, and when the phone came near. */
    method CheckPhone(utc: int, docked: bool) returns (met: bool)
      modifies this
      ensures met == PhoneAwayMet(old(View()), utc, docked)
      ensures View() == old(View()).(phoneNearSinceUtc := PhoneNearSince(old(View()), utc, docked))
    {
      hide LinkTimers.View, Profiles.ProfileRun.View;
      if InFailsafe(prox.View()) || !prox.haveVerdict {
        phoneNearSinceUtc := 0;
        return true;
      }
      var undocked := !docked || phoneUndockLatched;
      var nearPhone := undocked || prox.verdict == Near;
      if !nearPhone {
        phoneNearSinceUtc := 0;
        return true;
      }
      if phoneNearSinceUtc == 0 {
        phoneNearSinceUtc := utc;
      }
      return utc - phoneNearSinceUtc < PHONE_AWAY_TOLERANCE_S;
    }

    /** impulse_enforcement_check_condition. */
    method CheckCondition(utc: int, wifi: bool, ssid: Option<seq<U8>>, docked: bool) returns (met: bool)
      modifies this, profileRun
      ensures View() == Checked(old(View()), utc, wifi, ssid, docked)
      ensures met == conditionMet
    {
      hide CriterionHolds, PhoneNearSince, LinkTimers.View, ProxState.View, Profiles.ProfileRun.View;
      if active == None || (graceDeadlineUtc != 0 && utc < graceDeadlineUtc) {
        met := SettleTo(true);
        return;
      }
      met := Evaluate(active.value, utc, wifi, ssid, docked);
      met := SettleTo(met);
    }

    /** The switch over the criterion. */
    method Evaluate(e: Event, utc: int, wifi: bool, ssid: Option<seq<U8>>, docked: bool) returns (met: bool)
      modifies this
      ensures met == CriterionHolds(old(View()), e, utc, wifi, ssid, docked)
      ensures View() == old(View()).(phoneNearSinceUtc :=
        if e.criteria == CRIT_PHONE_AWAY then PhoneNearSince(old(View()), utc, docked) else old(phoneNearSinceUtc))
    {
      hide SsidMatches, CriterionMet, PhoneAwayMet, PhoneNearSince, LinkTimers.View, ProxState.View, Profiles.ProfileRun.View;
      if e.criteria == CRIT_GET_ON_WIFI {
        met := wifi && SsidMatches(e, ssid);
      } else if e.criteria == CRIT_GET_OFF_WIFI {
        met := !wifi || !SsidMatches(e, ssid);
      } else if e.criteria == CRIT_STAY_NEAR || e.criteria == CRIT_GET_AWAY {
        met := CriterionMet(prox.View(), e.criteria);
      } else if e.criteria == CRIT_PHONE_AWAY {
        met := CheckPhone(utc, docked);
      } else {
        met := true;
      }
    }

    /** impulse_enforcement_tick. */
    method Tick(dt: U32) returns (changed: bool)
      requires Profiles.Tickable(profileRun.View())
      modifies profileRun
      ensures View() == Ticked(old(View()), dt)
    {
      hide LinkTimers.View, ProxState.View, Profiles.ProfileRun.View;
      if state != Enforcing || conditionMet {
        return false;
      }
      changed := profileRun.Tick(dt);
    }

    /** conclude_away. */
    method ConcludeAway(utc: int)
      modifies this, profileRun, prox, link
      ensures View() == ConcludedAway(old(View()), utc)
    {
      hide Checked, ForcedAway, ProxState.View, Profiles.ProfileRun.View;
      link.grace := false;
      prox.ForceAway();
      var _ := CheckCondition(utc, false, None, true);
    }

    /** impulse_enforcement_link_update. */
    method LinkUpdate(obs: Option<Obs>, nowMs: int, utc: int)
      modifies this, profileRun, prox, link
      ensures View() == LinkUpdated(old(View()), obs, nowMs, utc)
    {
      hide Acted, Noted, Armed, Profiles.ProfileRun.View, ProxState.View;
      if state != Enforcing || active == None || !IsAnchorBased(active.value.criteria) || obs == None || !obs.value.known {
        link.grace := false;
        return;
      }
      link.Arm(nowMs);
      if conditionMet {
        link.grace := false;
      }
      var lost := link.Note(active.value.criteria, conditionMet, obs.value, nowMs);
      Act(active.value, obs.value, nowMs, utc, lost);
    }

    /** The rest of the link update, once the timers are up to date. */
    method Act(e: Event, o: Obs, nowMs: int, utc: int, lost: bool)
      requires active == Some(e) && lost == Lost(link.View(), o, nowMs)
      modifies this, profileRun, prox, link
      ensures View() == Acted(old(View()), o, nowMs, utc)
    {
      hide ConcludedAway, Lost, Profiles.Started, Profiles.ProfileRun.View;
      if lost {
        if !link.lossAwayApplied && nowMs - link.lossActivityMs >= LINK_LOST_AWAY_MS {
          link.lossAwayApplied := true;
          ConcludeAway(utc);
          return;
        }
      }
      if !link.grace {
        return;
      }
      if o.haveResult && o.resultMs > link.graceAfterMs && o.resultCm <= prox.awayEnterCm {
        link.grace := false;
        profileRun.Start(e.profile);
        return;
      }
      if nowMs >= link.graceDeadlineMs {
        ConcludeAway(utc);
      }
    }

    /** impulse_enforcement_burst_update. */
    method BurstUpdate(obs: Option<Obs>, nowMs: int, utc: int) returns (ingested: bool)
      modifies this, profileRun, prox, link
      ensures View() == BurstUpdated(old(View()), obs, nowMs, utc)
      ensures ingested == (Watching(old(View()), obs) && NewBurst(Armed(old(link.View()), nowMs), obs.value))
    {
      hide Checked, Ingested, Armed, Profiles.ProfileRun.View, ProxState.View;
      if state != Enforcing || active == None || !IsAnchorBased(active.value.criteria) || obs == None || !obs.value.known {
        return false;
      }
      link.Arm(nowMs);
      if !obs.value.haveResult || obs.value.resultMs < link.windowStartMs || obs.value.resultMs <= link.burstLastMs {
        return false;
      }
      link.Count(obs.value.resultMs);
      prox.Ingest(Reading(obs.value.resultCm));
      var _ := CheckCondition(utc, false, None, true);
      return true;
    }

    /** impulse_enforcement_poll_abstain_if_idle. */
    method PollAbstainIfIdle()
      modifies this, prox, link
      ensures View() == PollAbstained(old(View()))
    {
      hide Ingested, Profiles.ProfileRun.View, ProxState.View;
      if link.burstsSincePoll == 0 {
        prox.Ingest(Abstention());
      }
      link.burstsSincePoll := 0;
    }
  }
}
