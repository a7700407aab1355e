/**
 The phone-away alarm over whole windows: it never sounds on an uncertain link, nor before the phone has been
 seen near at every look for a minute.
 */
module PhoneAway {
  import opened Machine
  import opened Events
  import opened Proximity
  import opened Enforcement
  import opened EnforcementSafety
  import opened LostLink
  import Profiles

  predicate PhoneWindow(c: Ctx) {
    c.active.Some? && c.active.value.criteria == CRIT_PHONE_AWAY
  }

  /** A look at where the phone is: when, and whether it was known to be near. */
  datatype Look = Look(utc: int, near: bool)

  predicate KnownNear(c: Ctx, docked: bool) {
    !PhoneUnknown(c) && PhoneNear(c, docked)
  }

  /** The look a check takes, unless the donning grace answers for it. */
  function LookOfCheck(c: Ctx, utc: int, docked: bool): Option<Look> {
    if InDonningGrace(c, utc) then None else Some(Look(utc, KnownNear(c, docked)))
  }

  /** The look a call takes: by checking, by folding a burst in, or by concluding AWAY. */
  function LookOf(c: Ctx, h: Entry): Option<Look> {
    match h
    case Check(utc, wifi, ssid, docked) => LookOfCheck(c, utc, docked)
    case BurstUpdate(obs, nowMs, utc) =>
      if Folded(c, h).Some? then LookOfCheck(c.(prox := Ingested(c.prox, Reading(obs.value.resultCm))), utc, true) else None
    case LinkUpdate(obs, nowMs, utc) =>
      if Conclusion(c, h).Some? then LookOfCheck(c.(prox := ForcedAway(c.prox)), utc, true) else None
    case _ => None
  }

  /** What a call does to the tolerance and the verdict, by the look it took. */
  predicate FollowsLook(c: Ctx, d: Ctx, look: Option<Look>) {
    match look
    case None => d.phoneNearSinceUtc == c.phoneNearSinceUtc && (c.conditionMet ==> d.conditionMet)
    case Some(Look(utc, near)) =>
      && d.phoneNearSinceUtc == (if !near then 0 else if c.phoneNearSinceUtc == 0 then utc else c.phoneNearSinceUtc)
      && d.conditionMet == (!near || utc - d.phoneNearSinceUtc < PHONE_AWAY_TOLERANCE_S)
  }

  lemma CheckFollowsLook(c: Ctx, utc: int, wifi: bool, ssid: Option<seq<U8>>, docked: bool)
    requires PhoneWindow(c)
    ensures FollowsLook(c, Checked(c, utc, wifi, ssid, docked), LookOfCheck(c, utc, docked))
  {
    hide Profiles.Started;
  }

  lemma ConclusionFollowsLook(c: Ctx, utc: int)
    requires PhoneWindow(c)
    ensures FollowsLook(c, ConcludedAway(c, utc), LookOfCheck(c.(prox := ForcedAway(c.prox)), utc, true))
  {
    hide Checked, ForcedAway;
    CheckFollowsLook(c.(link := c.link.(grace := false), prox := ForcedAway(c.prox)), utc, false, None, true);
  }

  lemma LinkUpdateFollowsLook(c: Ctx, h: Entry)
    requires PhoneWindow(c) && Safe(c) && h.LinkUpdate?
    ensures FollowsLook(c, LinkUpdated(c, h.obs, h.nowMs, h.utc), LookOf(c, h))
  {
    hide Timers, LossIsDue, ConcludedAway, ForcedAway, Profiles.Started, OutputsFollow, LookOfCheck;
    if Watching(c, h.obs) {
      var d := c.(link := Timers(c, h.obs.value, h.nowMs));
      ConclusionFollowsLook(d, h.utc);
      ConclusionFollowsLook(d.(link := d.link.(lossAwayApplied := true)), h.utc);
      LookIgnoresLink(c, d.link, h.utc);
      LookIgnoresLink(c, d.link.(lossAwayApplied := true), h.utc);
    }
  }

  lemma LookIgnoresLink(c: Ctx, l: Link, utc: int)
    ensures LookOfCheck(c.(link := l).(prox := ForcedAway(c.prox)), utc, true) == LookOfCheck(c.(prox := ForcedAway(c.prox)), utc, true)
  {
  }

  lemma BurstFollowsLook(c: Ctx, h: Entry)
    requires PhoneWindow(c) && h.BurstUpdate?
    ensures FollowsLook(c, BurstUpdated(c, h.burst, h.atMs, h.utcBurst), LookOf(c, h))
  {
    hide Checked, Ingested;
    if Folded(c, h).Some? {
      var p := Ingested(c.prox, Reading(h.burst.value.resultCm));
      CheckFollowsLook(c.(link := Counted(Armed(c.link, h.atMs), h.burst.value), prox := p), h.utcBurst, false, None, true);
    }
  }

  lemma StepFollowsLook(c: Ctx, h: Entry)
    requires PhoneWindow(c) && Safe(c) && Profiles.Tickable(c.run) && !h.EnterWindow? && !h.ExitWindow?
    ensures FollowsLook(c, Step(c, h), LookOf(c, h))
  {
    hide LinkUpdated, BurstUpdated, Checked, Profiles.Ticked, Ingested, OutputsFollow;
    match h
    case Check(utc, wifi, ssid, docked) => CheckFollowsLook(c, utc, wifi, ssid, docked);
    case LinkUpdate(obs, nowMs, utc) => LinkUpdateFollowsLook(c, h);
    case BurstUpdate(obs, nowMs, utc) => BurstFollowsLook(c, h);
    case _ =>
  }

  /** The look taken by the k-th call of the run. */
  function LookAt(c: Ctx, hs: seq<Entry>, k: nat): Option<Look>
    requires Safe(c) && k < |hs|
  {
    LookOf(At(c, hs, k), hs[k])
  }

  /** From call `j` up to call `k`, every look saw the phone near. */
  ghost predicate NearThroughout(c: Ctx, hs: seq<Entry>, j: nat, k: nat)
    requires Safe(c) && k <= |hs|
  {
    forall i :: j <= i < k && LookAt(c, hs, i).Some? ==> LookAt(c, hs, i).value.near
  }

  lemma RunFollowsLook(c: Ctx, hs: seq<Entry>, k: nat)
    requires Safe(c) && PhoneWindow(c) && OneWindow(hs) && k < |hs|
    ensures FollowsLook(At(c, hs, k), At(c, hs, k + 1), LookAt(c, hs, k))
  {
    hide Safe, After, Step, LookOf, FollowsLook;
    WindowKeepsEvent(c, hs, k);
    AfterStep(c, hs, k);
    StepFollowsLook(At(c, hs, k), hs[k]);
  }

  /** The start of the tolerance is a look that saw the phone near, and so did every look since. */
  lemma {:induction false} SinceIsHistory(c: Ctx, hs: seq<Entry>, k: nat) returns (j: nat)
    requires Safe(c) && PhoneWindow(c) && OneWindow(hs) && k <= |hs|
    requires c.phoneNearSinceUtc == 0 && At(c, hs, k).phoneNearSinceUtc != 0
    ensures j < k && LookAt(c, hs, j) == Some(Look(At(c, hs, k).phoneNearSinceUtc, true))
    ensures NearThroughout(c, hs, j, k)
  {
    hide Safe, After, LookOf;
    NoCalls(c, hs);
    RunFollowsLook(c, hs, k - 1);
    if At(c, hs, k - 1).phoneNearSinceUtc == At(c, hs, k).phoneNearSinceUtc {
      j := SinceIsHistory(c, hs, k - 1);
    } else {
      j := k - 1;
    }
  }

  /**
   In one phone-away window: whenever the alarm condition is unmet, a look at call `j` saw the phone near, a
   look at call `l` at least a minute later did too, and so did every look from `j` on, each with a verdict
   and outside the fail-safe.
   */
  lemma {:induction false} AlarmIsEarned(c: Ctx, hs: seq<Entry>, k: nat) returns (j: nat, l: nat)
    requires Safe(c) && PhoneWindow(c) && OneWindow(hs) && k <= |hs|
    requires c.phoneNearSinceUtc == 0 && c.conditionMet && !At(c, hs, k).conditionMet
    ensures j <= l < k && LookAt(c, hs, j).Some? && LookAt(c, hs, l).Some?
    ensures LookAt(c, hs, l).value.utc - LookAt(c, hs, j).value.utc >= PHONE_AWAY_TOLERANCE_S
    ensures NearThroughout(c, hs, j, k)
    ensures At(c, hs, k).phoneNearSinceUtc == LookAt(c, hs, j).value.utc
  {
    hide Safe, After, LookOf;
    NoCalls(c, hs);
    RunFollowsLook(c, hs, k - 1);
    if LookAt(c, hs, k - 1).Some? {
      l := k - 1;
      j := SinceIsHistory(c, hs, k);
    } else {
      j, l := AlarmIsEarned(c, hs, k - 1);
    }
  }
}
