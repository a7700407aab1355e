/**
 The lost-link rule over whole windows: silences are short and far apart, every long loss is concluded AWAY
 exactly once, and a link the window never had is never concluded at all.
 */
module LostLink {
  import opened Machine
  import opened Events
  import opened Proximity
  import opened Enforcement
  import opened EnforcementSafety
  import Profiles

  /** No call of the run opens or closes a window. */
  predicate OneWindow(hs: seq<Entry>) {
    forall k :: 0 <= k < |hs| ==> !hs[k].EnterWindow? && !hs[k].ExitWindow?
  }

  /** The context when the k-th call of the run is made. */
  function At(c: Ctx, hs: seq<Entry>, k: nat): (d: Ctx)
    requires Safe(c) && k <= |hs|
    ensures Safe(d) && Profiles.Tickable(d.run)
  {
    After(c, hs[..k])
  }

  lemma CheckKeepsLink(c: Ctx, utc: int, wifi: bool, ssid: Option<seq<U8>>, docked: bool)
    ensures Checked(c, utc, wifi, ssid, docked).link == c.link
    ensures Checked(c, utc, wifi, ssid, docked).prox == c.prox
    ensures Checked(c, utc, wifi, ssid, docked).state == c.state && Checked(c, utc, wifi, ssid, docked).active == c.active
  {
  }

  lemma OtherCallsKeepTheTimers(c: Ctx, h: Entry)
    requires Profiles.Tickable(c.run) && !h.EnterWindow? && !h.ExitWindow? && !h.LinkUpdate?
    ensures var d := Step(c, h);
      d.link == c.link.(armed := d.link.armed, windowStartMs := d.link.windowStartMs,
                        burstLastMs := d.link.burstLastMs, burstsSincePoll := d.link.burstsSincePoll)
    ensures Step(c, h).state == c.state && Step(c, h).active == c.active
    ensures c.link.armed ==> Step(c, h).link.armed && Step(c, h).link.windowStartMs == c.link.windowStartMs
  {
    hide Checked, Profiles.Ticked, Ingested;
    if h.Check? {
      CheckKeepsLink(c, h.utcCheck, h.wifi, h.ssid, h.docked);
    } else if h.BurstUpdate? {
      BurstKeepsTimers(c, h.burst, h.atMs, h.utcBurst);
    }
  }

  lemma BurstKeepsTimers(c: Ctx, obs: Option<Obs>, nowMs: int, utc: int)
    ensures var d := BurstUpdated(c, obs, nowMs, utc);
      && d.link == c.link.(armed := d.link.armed, windowStartMs := d.link.windowStartMs,
                           burstLastMs := d.link.burstLastMs, burstsSincePoll := d.link.burstsSincePoll)
      && d.state == c.state && d.active == c.active
      && (c.link.armed ==> d.link.armed && d.link.windowStartMs == c.link.windowStartMs)
  {
    hide Checked, Ingested;
    if Watching(c, obs) && NewBurst(Armed(c.link, nowMs), obs.value) {
      CheckKeepsLink(c.(link := Counted(Armed(c.link, nowMs), obs.value), prox := Ingested(c.prox, Reading(obs.value.resultCm))),
                     utc, false, None, true);
    }
  }

  // ---------------------------------------------------------------------------
  // What one update can do to the timers
  // ---------------------------------------------------------------------------

  /** AWAY concluded because the loss has lasted ten seconds. */
  predicate ConcludesLoss(c: Ctx, obs: Option<Obs>, nowMs: int) {
    Watching(c, obs) && LossIsDue(Timers(c, obs.value, nowMs), obs.value, nowMs)
  }

  /** AWAY concluded because a grace ran out unchallenged. */
  predicate ConcludesGrace(c: Ctx, obs: Option<Obs>, nowMs: int) {
    && Watching(c, obs) && !ConcludesLoss(c, obs, nowMs)
    && var l := Timers(c, obs.value, nowMs);
       l.grace && !Disproved(c, l, obs.value) && nowMs >= l.graceDeadlineMs
  }

  /** The link timers after an update. */
  function UpdatedTimers(c: Ctx, obs: Option<Obs>, nowMs: int): Link {
    if !Watching(c, obs) then c.link.(grace := false)
    else
      var l := Timers(c, obs.value, nowMs);
      if ConcludesLoss(c, obs, nowMs) then l.(lossAwayApplied := true, grace := false)
      else if ConcludesGrace(c, obs, nowMs) || Disproved(c, l, obs.value) then l.(grace := false)
      else l
  }

  lemma UpdateSetsTimers(c: Ctx, obs: Option<Obs>, nowMs: int, utc: int)
    ensures LinkUpdated(c, obs, nowMs, utc).link == UpdatedTimers(c, obs, nowMs)
    ensures LinkUpdated(c, obs, nowMs, utc).prox ==
      if ConcludesLoss(c, obs, nowMs) || ConcludesGrace(c, obs, nowMs) then ForcedAway(c.prox) else c.prox
    ensures LinkUpdated(c, obs, nowMs, utc).state == c.state && LinkUpdated(c, obs, nowMs, utc).active == c.active
    ensures !ConcludesLoss(c, obs, nowMs) && !ConcludesGrace(c, obs, nowMs) ==>
      LinkUpdated(c, obs, nowMs, utc).conditionMet == c.conditionMet
  {
    hide Checked, Timers, Lost, Profiles.Started, ForcedAway;
    if Watching(c, obs) {
      var d := c.(link := Timers(c, obs.value, nowMs));
      ConclusionSetsTimers(d, utc);
      ConclusionSetsTimers(d.(link := d.link.(lossAwayApplied := true)), utc);
    }
  }

  lemma ConclusionSetsTimers(c: Ctx, utc: int)
    ensures ConcludedAway(c, utc).link == c.link.(grace := false)
    ensures ConcludedAway(c, utc).prox == ForcedAway(c.prox)
    ensures ConcludedAway(c, utc).state == c.state && ConcludedAway(c, utc).active == c.active
  {
    hide Checked, ForcedAway;
    CheckKeepsLink(c.(link := c.link.(grace := false), prox := ForcedAway(c.prox)), utc, false, None, true);
  }

  // ---------------------------------------------------------------------------
  // Silences are short
  // ---------------------------------------------------------------------------

  /**
   After every link update, output held silent means: a getAway commitment, still unmet, and less than ten
   seconds since the activity that preceded the loss.
   */
  lemma SilenceIsShort(c: Ctx, obs: Option<Obs>, nowMs: int, utc: int)
    requires Safe(c)
    ensures var d := LinkUpdated(c, obs, nowMs, utc);
      Silenced(d) ==>
        && d.active.Some? && d.active.value.criteria == CRIT_GET_AWAY
        && !d.conditionMet
        && nowMs - d.link.graceAfterMs < LINK_LOST_AWAY_MS
  {
    hide LinkUpdated, OutputsFollow, Timers, LossIsDue;
    UpdateSetsTimers(c, obs, nowMs, utc);
    if Watching(c, obs) {
      TimersAreBounded(c, obs.value, nowMs);
    }
  }

  // ---------------------------------------------------------------------------
  // Silences are far apart
  // ---------------------------------------------------------------------------

  predicate FallsSilent(c: Ctx, h: Entry)
    requires Profiles.Tickable(c.run)
  {
    !Silenced(c) && Silenced(Step(c, h))
  }

  /** Only a link update silences, it waits out the cooldown, and it starts a new one. */
  lemma FallingSilent(c: Ctx, h: Entry)
    requires Safe(c) && Profiles.Tickable(c.run) && FallsSilent(c, h)
    ensures h.LinkUpdate? && h.obs.Some?
    ensures h.nowMs >= c.link.cooldownUntilMs
    ensures var l := Step(c, h).link;
      l.cooldownUntilMs == h.nowMs + LINK_GRACE_COOLDOWN_MS && l.graceAfterMs == h.obs.value.lastActivityMs
  {
    hide LinkUpdated, Lost, Disproved, OutputsFollow, Checked, Initial;
    if h.LinkUpdate? {
      UpdateSetsTimers(c, h.obs, h.nowMs, h.utc);
    } else if !h.EnterWindow? && !h.ExitWindow? {
      OtherCallsKeepTheTimers(c, h);
    }
  }

  lemma CooldownOnlyGrows(c: Ctx, h: Entry)
    requires Safe(c) && Profiles.Tickable(c.run) && !h.EnterWindow? && !h.ExitWindow?
    ensures Step(c, h).link.cooldownUntilMs >= c.link.cooldownUntilMs
    ensures Silenced(c) && Silenced(Step(c, h)) ==> Step(c, h).link.graceAfterMs == c.link.graceAfterMs
  {
    hide LinkUpdated, Lost, Disproved, OutputsFollow, Checked;
    if h.LinkUpdate? {
      UpdateSetsTimers(c, h.obs, h.nowMs, h.utc);
    } else {
      OtherCallsKeepTheTimers(c, h);
    }
  }

  lemma {:induction false} CooldownGrowsAlong(c: Ctx, hs: seq<Entry>, i: nat, j: nat)
    requires Safe(c) && OneWindow(hs) && i <= j <= |hs|
    ensures At(c, hs, j).link.cooldownUntilMs >= At(c, hs, i).link.cooldownUntilMs
    decreases j - i
  {
    hide After, Step, Safe;
    if i < j {
      CooldownGrowsAlong(c, hs, i, j - 1);
      AfterStep(c, hs, j - 1);
      CooldownOnlyGrows(At(c, hs, j - 1), hs[j - 1]);
    }
  }

  /** In one window, output falls silent at most once in any two minutes, whatever else is called in between. */
  lemma SilencesAreFarApart(c: Ctx, hs: seq<Entry>, i: nat, j: nat)
    requires Safe(c) && OneWindow(hs) && i < j < |hs|
    requires FallsSilent(At(c, hs, i), hs[i]) && FallsSilent(At(c, hs, j), hs[j])
    ensures hs[i].LinkUpdate? && hs[j].LinkUpdate?
    ensures hs[j].nowMs - hs[i].nowMs >= LINK_GRACE_COOLDOWN_MS
  {
    hide After, Step, Safe, FallsSilent;
    FallingSilent(At(c, hs, i), hs[i]);
    FallingSilent(At(c, hs, j), hs[j]);
    AfterStep(c, hs, i);
    CooldownGrowsAlong(c, hs, i + 1, j);
  }

  /** A silence has a cause in its window: a link update that found the link lost, at the activity it counts from. */
  lemma {:induction false} SilenceHasACause(c: Ctx, hs: seq<Entry>, k: nat) returns (j: nat)
    requires Safe(c) && OneWindow(hs) && k <= |hs|
    requires !Silenced(c) && Silenced(At(c, hs, k))
    ensures j < k && FallsSilent(At(c, hs, j), hs[j])
    ensures hs[j].LinkUpdate? && hs[j].obs.Some? && hs[j].obs.value.lastActivityMs == At(c, hs, k).link.graceAfterMs
  {
    hide Step, Safe, Silenced;
    assert At(c, hs, 0) == c;
    AfterStep(c, hs, k - 1);
    if Silenced(At(c, hs, k - 1)) {
      j := SilenceHasACause(c, hs, k - 1);
      CooldownOnlyGrows(At(c, hs, k - 1), hs[k - 1]);
    } else {
      j := k - 1;
      FallingSilent(At(c, hs, j), hs[j]);
    }
  }

  // ---------------------------------------------------------------------------
  // A long loss is concluded
  // ---------------------------------------------------------------------------

  /** A link seen in this window and silent for ten seconds has had AWAY concluded for that loss once the update returns. */
  lemma LongLossIsConcluded(c: Ctx, obs: Option<Obs>, nowMs: int, utc: int)
    requires Watching(c, obs) && Seen(Armed(c.link, nowMs), obs.value)
    requires nowMs - obs.value.lastActivityMs >= LINK_LOST_AWAY_MS
    ensures var l := LinkUpdated(c, obs, nowMs, utc).link;
      l.lossActivityMs == obs.value.lastActivityMs && l.lossAwayApplied
  {
    hide LinkUpdated, Disproved;
    UpdateSetsTimers(c, obs, nowMs, utc);
  }

  /** A conclusion settles the criterion on the same pass: AWAY satisfies all but stayNear. */
  lemma ConclusionSettles(c: Ctx, obs: Option<Obs>, nowMs: int, utc: int)
    requires Safe(c) && !InDonningGrace(c, utc)
    requires ConcludesLoss(c, obs, nowMs) || ConcludesGrace(c, obs, nowMs)
    ensures var d := LinkUpdated(c, obs, nowMs, utc);
      && d.conditionMet == (c.active.value.criteria != CRIT_STAY_NEAR)
      && (d.conditionMet ==> Profiles.Quiet(d.run))
  {
    hide Timers, Lost, Profiles.Started;
    LinkUpdateIsSafe(c, obs, nowMs, utc);
  }

  // ---------------------------------------------------------------------------
  // ... once
  // ---------------------------------------------------------------------------

  /** The activity a conclusion of AWAY counts its ten seconds from, if the call makes one. */
  function Conclusion(c: Ctx, h: Entry): Option<int> {
    if !h.LinkUpdate? then None
    else if ConcludesLoss(c, h.obs, h.nowMs) then Some(h.obs.value.lastActivityMs)
    else if ConcludesGrace(c, h.obs, h.nowMs) then Some(Timers(c, h.obs.value, h.nowMs).graceAfterMs)
    else None
  }

  /** The latest activity this call saw, given the latest before it. */
  function Latest(latest: Option<int>, h: Entry): Option<int> {
    if h.LinkUpdate? && h.obs.Some? && h.obs.value.known && h.obs.value.activitySeen then Some(h.obs.value.lastActivityMs) else latest
  }

  function LatestIn(hs: seq<Entry>): Option<int> {
    if hs == [] then None else Latest(LatestIn(hs[..|hs| - 1]), hs[|hs| - 1])
  }

  /** Telemetry that never forgets: once activity has been seen it stays seen, and its time never goes back. */
  predicate SteadyNext(latest: Option<int>, h: Entry) {
    h.LinkUpdate? && h.obs.Some? && h.obs.value.known && latest.Some? ==>
      h.obs.value.activitySeen && h.obs.value.lastActivityMs >= latest.value
  }

  predicate Steady(hs: seq<Entry>) {
    forall k :: 0 <= k < |hs| ==> SteadyNext(LatestIn(hs[..k]), hs[k])
  }

  /** No activity up to and including `s` can still be concluded. */
  predicate DoneUpTo(c: Ctx, latest: Option<int>, s: int) {
    && (c.link.grace ==> c.link.graceAfterMs > s)
    && latest.Some? && latest.value >= s
    && (latest.value == s ==> c.link.lossActivityMs == s && c.link.lossAwayApplied)
    && c.link.armed && c.link.windowStartMs <= s
  }

  /** A live grace counts from activity of this window that has been seen. */
  predicate GraceIsKnown(c: Ctx, latest: Option<int>) {
    c.link.grace ==>
      && latest.Some? && c.link.graceAfterMs <= latest.value
      && c.link.armed && c.link.windowStartMs <= c.link.graceAfterMs
  }

  lemma GraceStaysKnown(c: Ctx, latest: Option<int>, h: Entry)
    requires Safe(c) && Profiles.Tickable(c.run) && !h.EnterWindow? && !h.ExitWindow?
    requires GraceIsKnown(c, latest) && SteadyNext(latest, h)
    ensures GraceIsKnown(Step(c, h), Latest(latest, h))
  {
    hide LinkUpdated, Disproved, OutputsFollow, Checked;
    if h.LinkUpdate? {
      UpdateSetsTimers(c, h.obs, h.nowMs, h.utc);
    } else {
      OtherCallsKeepTheTimers(c, h);
    }
  }

  /** Every conclusion comes at least ten seconds after the activity it counts from, which was in this window. */
  lemma ConclusionIsDone(c: Ctx, latest: Option<int>, h: Entry)
    requires Safe(c) && Profiles.Tickable(c.run) && GraceIsKnown(c, latest) && SteadyNext(latest, h)
    requires Conclusion(c, h).Some?
    ensures h.LinkUpdate? && h.nowMs - Conclusion(c, h).value >= LINK_LOST_AWAY_MS
    ensures DoneUpTo(Step(c, h), Latest(latest, h), Conclusion(c, h).value)
  {
    hide LinkUpdated, Disproved, OutputsFollow;
    UpdateSetsTimers(c, h.obs, h.nowMs, h.utc);
  }

  lemma StaysDone(c: Ctx, latest: Option<int>, s: int, h: Entry)
    requires Safe(c) && Profiles.Tickable(c.run) && !h.EnterWindow? && !h.ExitWindow?
    requires DoneUpTo(c, latest, s) && SteadyNext(latest, h)
    requires h.LinkUpdate? ==> h.nowMs - s >= LINK_LOST_AWAY_MS
    ensures DoneUpTo(Step(c, h), Latest(latest, h), s)
    ensures Conclusion(c, h).Some? ==> Conclusion(c, h).value > s
  {
    hide LinkUpdated, Disproved, OutputsFollow, Checked;
    if h.LinkUpdate? {
      UpdateSetsTimers(c, h.obs, h.nowMs, h.utc);
    } else {
      OtherCallsKeepTheTimers(c, h);
    }
  }

  /** Uptime does not run backwards. */
  predicate InOrder(hs: seq<Entry>) {
    forall i, j :: 0 <= i < j < |hs| && hs[i].LinkUpdate? && hs[j].LinkUpdate? ==> hs[i].nowMs <= hs[j].nowMs
  }

  lemma LatestStep(hs: seq<Entry>, k: nat)
    requires k < |hs|
    ensures LatestIn(hs[..k + 1]) == Latest(LatestIn(hs[..k]), hs[k])
  {
    assert hs[..k + 1][..k] == hs[..k];
  }

  lemma {:induction false} GraceIsKnownAlong(c: Ctx, hs: seq<Entry>, k: nat)
    requires Safe(c) && !c.link.grace && OneWindow(hs) && Steady(hs) && k <= |hs|
    ensures GraceIsKnown(At(c, hs, k), LatestIn(hs[..k]))
  {
    hide Step, Safe, After, Latest, SteadyNext;
    if k == 0 {
      assert At(c, hs, 0) == c by { NoCalls(c, hs); }
    } else {
      GraceIsKnownAlong(c, hs, k - 1);
      AfterStep(c, hs, k - 1);
      LatestStep(hs, k - 1);
      GraceStaysKnown(At(c, hs, k - 1), LatestIn(hs[..k - 1]), hs[k - 1]);
    }
  }

  lemma NoCalls(c: Ctx, hs: seq<Entry>)
    requires Safe(c)
    ensures At(c, hs, 0) == c
  {
  }

  /** What the assumptions on a run say of its `k`-th call, after an update at `i`. */
  lemma NextCall(hs: seq<Entry>, i: nat, k: nat)
    requires OneWindow(hs) && Steady(hs) && InOrder(hs) && i < k < |hs| && hs[i].LinkUpdate?
    ensures !hs[k].EnterWindow? && !hs[k].ExitWindow? && SteadyNext(LatestIn(hs[..k]), hs[k])
    ensures hs[k].LinkUpdate? ==> hs[i].nowMs <= hs[k].nowMs
  {
    hide SteadyNext, LatestIn;
  }

  lemma {:induction false} StaysDoneAlong(c: Ctx, hs: seq<Entry>, i: nat, k: nat, s: int)
    requires Safe(c) && OneWindow(hs) && Steady(hs) && InOrder(hs) && i < k <= |hs|
    requires hs[i].LinkUpdate? && hs[i].nowMs - s >= LINK_LOST_AWAY_MS
    requires DoneUpTo(At(c, hs, i + 1), LatestIn(hs[..i + 1]), s)
    ensures DoneUpTo(At(c, hs, k), LatestIn(hs[..k]), s)
    decreases k
  {
    hide Step, Safe, After, Latest, LatestIn, SteadyNext, DoneUpTo;
    if k > i + 1 {
      StaysDoneAlong(c, hs, i, k - 1, s);
      NextCall(hs, i, k - 1);
      hide Steady, InOrder, OneWindow;
      AfterStep(c, hs, k - 1);
      LatestStep(hs, k - 1);
      StaysDone(At(c, hs, k - 1), LatestIn(hs[..k - 1]), s, hs[k - 1]);
    }
  }

  /** In one window whose telemetry never steps back, each conclusion of AWAY counts from later activity than the last. */
  lemma EachLossIsConcludedOnce(c: Ctx, hs: seq<Entry>, i: nat, j: nat)
    requires Safe(c) && !c.link.grace && OneWindow(hs) && Steady(hs) && InOrder(hs) && i < j < |hs|
    requires Conclusion(At(c, hs, i), hs[i]).Some? && Conclusion(At(c, hs, j), hs[j]).Some?
    ensures Conclusion(At(c, hs, i), hs[i]).value < Conclusion(At(c, hs, j), hs[j]).value
  {
    hide Step, Safe, After, Latest, SteadyNext, DoneUpTo, Conclusion;
    var s := Conclusion(At(c, hs, i), hs[i]).value;
    GraceIsKnownAlong(c, hs, i);
    ConclusionIsDone(At(c, hs, i), LatestIn(hs[..i]), hs[i]);
    AfterStep(c, hs, i);
    LatestStep(hs, i);
    StaysDoneAlong(c, hs, i, j, s);
    StaysDone(At(c, hs, j), LatestIn(hs[..j]), s, hs[j]);
  }

  lemma AppliedStep(c: Ctx, h: Entry)
    requires Safe(c) && Profiles.Tickable(c.run) && !h.EnterWindow? && !h.ExitWindow?
    ensures var l := Step(c, h).link;
      l.lossAwayApplied && l.lossActivityMs != 0 ==>
        || Conclusion(c, h) == Some(l.lossActivityMs)
        || (c.link.lossAwayApplied && c.link.lossActivityMs == l.lossActivityMs)
  {
    hide LinkUpdated, Disproved, OutputsFollow, Checked;
    if h.LinkUpdate? {
      UpdateSetsTimers(c, h.obs, h.nowMs, h.utc);
    } else {
      OtherCallsKeepTheTimers(c, h);
    }
  }

  /** A loss marked as concluded was concluded by some call of this window. */
  lemma {:induction false} AppliedIsHistory(c: Ctx, hs: seq<Entry>, k: nat) returns (j: nat)
    requires Safe(c) && !c.link.lossAwayApplied && OneWindow(hs) && k <= |hs|
    requires At(c, hs, k).link.lossAwayApplied && At(c, hs, k).link.lossActivityMs != 0
    ensures j < k && Conclusion(At(c, hs, j), hs[j]) == Some(At(c, hs, k).link.lossActivityMs)
  {
    hide Step, Safe, After, Conclusion;
    NoCalls(c, hs);
    AfterStep(c, hs, k - 1);
    AppliedStep(At(c, hs, k - 1), hs[k - 1]);
    if Conclusion(At(c, hs, k - 1), hs[k - 1]) == Some(At(c, hs, k).link.lossActivityMs) {
      j := k - 1;
    } else {
      j := AppliedIsHistory(c, hs, k - 1);
    }
  }

  /** In one window: a loss that an update finds ten seconds old has been concluded, by that update or an earlier one. */
  lemma EveryLongLossIsConcluded(c: Ctx, hs: seq<Entry>, k: nat) returns (j: nat)
    requires Safe(c) && !c.link.lossAwayApplied && OneWindow(hs) && k < |hs| && hs[k].LinkUpdate?
    requires Watching(At(c, hs, k), hs[k].obs) && Seen(Armed(At(c, hs, k).link, hs[k].nowMs), hs[k].obs.value)
    requires hs[k].nowMs - hs[k].obs.value.lastActivityMs >= LINK_LOST_AWAY_MS
    requires hs[k].obs.value.lastActivityMs != 0
    ensures j <= k && Conclusion(At(c, hs, j), hs[j]) == Some(hs[k].obs.value.lastActivityMs)
  {
    hide Safe, After, Conclusion, LinkUpdated;
    AfterStep(c, hs, k);
    LongLossIsConcluded(At(c, hs, k), hs[k].obs, hs[k].nowMs, hs[k].utc);
    j := AppliedIsHistory(c, hs, k + 1);
  }

  // ---------------------------------------------------------------------------
  // Once, whatever the telemetry
  // ---------------------------------------------------------------------------

  /** This update does not report the link lost since activity `s`: no loss, or one counted from elsewhere. */
  predicate ReportsElse(c: Ctx, h: Entry, s: int) {
    h.LinkUpdate? && Watching(c, h.obs)
    && !(Lost(Armed(c.link, h.nowMs), h.obs.value, h.nowMs) && h.obs.value.lastActivityMs == s)
  }

  /** AWAY has been concluded for the loss since `s`, and no grace counts from there. */
  predicate DoneFor(c: Ctx, s: int) {
    c.link.lossActivityMs == s && c.link.lossAwayApplied && (c.link.grace ==> c.link.graceAfterMs != s)
  }

  lemma ConclusionIsDoneFor(c: Ctx, h: Entry)
    requires Safe(c) && Profiles.Tickable(c.run) && Conclusion(c, h).Some?
    ensures ReportsElse(c, h, Conclusion(c, h).value) || DoneFor(Step(c, h), Conclusion(c, h).value)
  {
    hide LinkUpdated, Disproved, OutputsFollow;
    UpdateSetsTimers(c, h.obs, h.nowMs, h.utc);
  }

  lemma StaysDoneFor(c: Ctx, h: Entry, s: int)
    requires Safe(c) && Profiles.Tickable(c.run) && !h.EnterWindow? && !h.ExitWindow?
    requires DoneFor(c, s)
    ensures ReportsElse(c, h, s) || DoneFor(Step(c, h), s)
    ensures Conclusion(c, h) != Some(s)
  {
    hide LinkUpdated, Disproved, OutputsFollow, Checked;
    if h.LinkUpdate? {
      UpdateSetsTimers(c, h.obs, h.nowMs, h.utc);
    } else {
      OtherCallsKeepTheTimers(c, h);
    }
  }

  /** Where a concluded loss was forgotten: an update that reported something else. */
  lemma {:induction false} ForgottenBy(c: Ctx, hs: seq<Entry>, i: nat, j: nat, s: int) returns (k: nat)
    requires Safe(c) && OneWindow(hs) && i < j <= |hs|
    requires ReportsElse(At(c, hs, i), hs[i], s) || DoneFor(At(c, hs, i + 1), s)
    requires !DoneFor(At(c, hs, j), s)
    ensures i <= k < j && ReportsElse(At(c, hs, k), hs[k], s)
    decreases j - i
  {
    hide After, Step, Safe, DoneFor, ReportsElse;
    k := i;
    if !ReportsElse(At(c, hs, i), hs[i], s) {
      AfterStep(c, hs, i + 1);
      StaysDoneFor(At(c, hs, i + 1), hs[i + 1], s);
      k := ForgottenBy(c, hs, i + 1, j, s);
    }
  }

  /**
   In one window, for any telemetry and clock whatever: two conclusions that count from the same activity
   are separated by an update, the first of the two at the earliest, that reported no loss or another activity.
   */
  lemma NoLossIsConcludedTwice(c: Ctx, hs: seq<Entry>, i: nat, j: nat) returns (k: nat)
    requires Safe(c) && OneWindow(hs) && i < j < |hs|
    requires Conclusion(At(c, hs, i), hs[i]).Some? && Conclusion(At(c, hs, j), hs[j]) == Conclusion(At(c, hs, i), hs[i])
    ensures i <= k < j && ReportsElse(At(c, hs, k), hs[k], Conclusion(At(c, hs, i), hs[i]).value)
  {
    hide After, Step, Safe, DoneFor, ReportsElse, Conclusion;
    var s := Conclusion(At(c, hs, i), hs[i]).value;
    ConclusionIsDoneFor(At(c, hs, i), hs[i]);
    AfterStep(c, hs, i);
    if DoneFor(At(c, hs, j), s) {
      StaysDoneFor(At(c, hs, j), hs[j], s);
    }
    k := ForgottenBy(c, hs, i, j, s);
  }

  // ---------------------------------------------------------------------------
  // A link the window never had
  // ---------------------------------------------------------------------------

  predicate NotSeen(c: Ctx, h: Entry) {
    h.LinkUpdate? && Watching(c, h.obs) ==> !Seen(Armed(c.link, h.nowMs), h.obs.value)
  }

  /** The measurement a call feeds to the verdict, if any. */
  function Measured(c: Ctx, h: Entry): (ms: seq<Measurement>)
    ensures |ms| <= 1
  {
    match h
    case BurstUpdate(obs, nowMs, utc) =>
      if Watching(c, obs) && NewBurst(Armed(c.link, nowMs), obs.value) then [Reading(obs.value.resultCm)] else []
    case PollAbstain => if c.link.burstsSincePoll == 0 then [Abstention()] else []
    case Measure(m) => [m]
    case _ => []
  }

  function MeasuredIn(c: Ctx, hs: seq<Entry>): seq<Measurement>
    requires Safe(c)
    decreases |hs|
  {
    if hs == [] then []
    else
      var front := hs[..|hs| - 1];
      MeasuredIn(c, front) + Measured(After(c, front), hs[|hs| - 1])
  }

  lemma IngestOneMore(p: Prox, ms: seq<Measurement>, more: seq<Measurement>)
    requires |more| <= 1
    ensures IngestAll(p, ms + more) == IngestAll(IngestAll(p, ms), more)
  {
    if more == [] {
      assert ms + more == ms;
    } else {
      assert (ms + more)[..|ms|] == ms;
      assert more[..0] == [];
      assert IngestAll(IngestAll(p, ms), more[..0]) == IngestAll(p, ms);
    }
  }

  lemma UnseenStep(c: Ctx, h: Entry)
    requires Safe(c) && Profiles.Tickable(c.run) && !h.EnterWindow? && !h.ExitWindow?
    requires !c.link.grace && NotSeen(c, h)
    ensures !Step(c, h).link.grace && Conclusion(c, h) == None
    ensures Step(c, h).prox == IngestAll(c.prox, Measured(c, h))
  {
    hide LinkUpdated, Disproved, OutputsFollow, Checked, Ingested;
    assert [Abstention()][..0] == [] && IngestAll(c.prox, []) == c.prox;
    match h
    case LinkUpdate(obs, nowMs, utc) => UpdateSetsTimers(c, obs, nowMs, utc);
    case BurstUpdate(obs, nowMs, utc) =>
      BurstKeepsTimers(c, obs, nowMs, utc);
      BurstIngests(c, obs, nowMs, utc);
    case Check(utc, wifi, ssid, docked) => CheckKeepsLink(c, utc, wifi, ssid, docked);
    case Measure(m) => assert [m][..0] == [];
    case _ =>
  }

  lemma BurstIngests(c: Ctx, obs: Option<Obs>, nowMs: int, utc: int)
    ensures BurstUpdated(c, obs, nowMs, utc).prox ==
      if Watching(c, obs) && NewBurst(Armed(c.link, nowMs), obs.value) then Ingested(c.prox, Reading(obs.value.resultCm)) else c.prox
    ensures BurstUpdated(c, obs, nowMs, utc).link.burstLastMs ==
      if Watching(c, obs) && NewBurst(Armed(c.link, nowMs), obs.value) then obs.value.resultMs else c.link.burstLastMs
  {
    hide Checked, Ingested;
    if Watching(c, obs) && NewBurst(Armed(c.link, nowMs), obs.value) {
      CheckKeepsLink(c.(link := Counted(Armed(c.link, nowMs), obs.value), prox := Ingested(c.prox, Reading(obs.value.resultCm))),
                     utc, false, None, true);
    }
  }

  ghost predicate NeverSeen(c: Ctx, hs: seq<Entry>)
    requires Safe(c)
  {
    forall k :: 0 <= k < |hs| ==> NotSeen(At(c, hs, k), hs[k])
  }

  lemma {:induction false} UnseenRun(c: Ctx, hs: seq<Entry>, k: nat)
    requires Safe(c) && !c.link.grace && OneWindow(hs) && NeverSeen(c, hs) && k <= |hs|
    ensures !At(c, hs, k).link.grace
    ensures At(c, hs, k).prox == IngestAll(c.prox, MeasuredIn(c, hs[..k]))
  {
    hide Step, Safe, NotSeen, Measured;
    if k > 0 {
      UnseenRun(c, hs, k - 1);
      AfterStep(c, hs, k - 1);
      UnseenStep(At(c, hs, k - 1), hs[k - 1]);
      assert hs[..k][..k - 1] == hs[..k - 1];
      IngestOneMore(c.prox, MeasuredIn(c, hs[..k - 1]), Measured(At(c, hs, k - 1), hs[k - 1]));
    }
  }

  /**
   A link never seen in a window never yields a forced AWAY: the verdict is at every moment the one earned by
   the window's own measurements.
   */
  lemma UnseenLinkIsOnlyMeasured(c: Ctx, e: Event, utc: int, worn: bool, hs: seq<Entry>)
    requires Safe(c) && IsAnchorBased(e.criteria) && OneWindow(hs)
    requires Safe(Enter(c, e, utc, worn)) && NeverSeen(Enter(c, e, utc, worn), hs)
    ensures var d := Enter(c, e, utc, worn);
      var p, q, ms := Initial(AnchorOf(e), 0, 0), After(d, hs).prox, MeasuredIn(d, hs);
      && q.haveVerdict == Earned(p, Readings(ms)).Some?
      && q.verdict == (if q.haveVerdict then Earned(p, Readings(ms)).value else Away)
    ensures forall k :: 0 <= k < |hs| ==> Conclusion(At(Enter(c, e, utc, worn), hs, k), hs[k]) == None
  {
    hide Safe, NotSeen, Conclusion, Step, Earned, Readings, Measured;
    var d := Enter(c, e, utc, worn);
    UnseenRun(d, hs, |hs|);
    assert hs[..|hs|] == hs;
    VerdictIsEarned(Initial(AnchorOf(e), 0, 0), MeasuredIn(d, hs));
    forall k | 0 <= k < |hs|
      ensures Conclusion(At(d, hs, k), hs[k]) == None
    {
      UnseenRun(d, hs, k);
      UnseenStep(At(d, hs, k), hs[k]);
    }
  }

  lemma {:induction false} WindowKeepsEvent(c: Ctx, hs: seq<Entry>, k: nat)
    requires Safe(c) && OneWindow(hs) && k <= |hs|
    ensures At(c, hs, k).active == c.active && At(c, hs, k).state == c.state
  {
    hide Step, Safe, After;
    NoCalls(c, hs);
    if k > 0 {
      WindowKeepsEvent(c, hs, k - 1);
      AfterStep(c, hs, k - 1);
      var d, h := At(c, hs, k - 1), hs[k - 1];
      if h.LinkUpdate? {
        StepIsUpdate(d, h);
        UpdateSetsTimers(d, h.obs, h.nowMs, h.utc);
      } else {
        OtherCallsKeepTheTimers(d, h);
      }
    }
  }

  lemma StepIsUpdate(c: Ctx, h: Entry)
    requires Profiles.Tickable(c.run) && h.LinkUpdate?
    ensures Step(c, h) == LinkUpdated(c, h.obs, h.nowMs, h.utc)
  {
  }

  /**
   Blocking the radio of such a window buys nothing: once more than five abstentions in a row have been fed
   in, the next check fails stayNear and satisfies the other two.
   */
  lemma JammedRadioFailsClosed(c: Ctx, e: Event, utc: int, worn: bool, hs: seq<Entry>, checkUtc: int)
    requires Safe(c) && IsAnchorBased(e.criteria) && OneWindow(hs)
    requires Safe(Enter(c, e, utc, worn)) && NeverSeen(Enter(c, e, utc, worn), hs)
    requires TrailingAbstentions(MeasuredIn(Enter(c, e, utc, worn), hs)) > ABSTAIN_MAX_CONSECUTIVE
    ensures var d := After(Enter(c, e, utc, worn), hs);
      !InDonningGrace(d, checkUtc) ==> (Checked(d, checkUtc, false, None, true).conditionMet <==> e.criteria != CRIT_STAY_NEAR)
  {
    hide Safe, NotSeen, Step, Earned, Readings, Measured;
    var d := Enter(c, e, utc, worn);
    UnseenRun(d, hs, |hs|);
    assert hs[..|hs|] == hs;
    VerdictIsEarned(Initial(AnchorOf(e), 0, 0), MeasuredIn(d, hs));
    WindowKeepsEvent(d, hs, |hs|);
  }

  // ---------------------------------------------------------------------------
  // Every burst counts once
  // ---------------------------------------------------------------------------

  /** The completion time of the burst a call folds into the verdict, if it folds one. */
  function Folded(c: Ctx, h: Entry): Option<int> {
    if h.BurstUpdate? && Watching(c, h.burst) && NewBurst(Armed(c.link, h.atMs), h.burst.value) then Some(h.burst.value.resultMs) else None
  }

  lemma FoldingAdvances(c: Ctx, h: Entry)
    requires Safe(c) && Profiles.Tickable(c.run) && !h.EnterWindow? && !h.ExitWindow?
    ensures Step(c, h).link.burstLastMs == (if Folded(c, h).Some? then Folded(c, h).value else c.link.burstLastMs)
    ensures Folded(c, h).Some? ==> Folded(c, h).value > c.link.burstLastMs
  {
    hide LinkUpdated, Lost, Disproved, OutputsFollow, Checked, Ingested;
    match h
    case LinkUpdate(obs, nowMs, utc) => UpdateSetsTimers(c, obs, nowMs, utc);
    case BurstUpdate(obs, nowMs, utc) => BurstIngests(c, obs, nowMs, utc);
    case Check(utc, wifi, ssid, docked) => CheckKeepsLink(c, utc, wifi, ssid, docked);
    case _ =>
  }

  lemma {:induction false} FoldedTimesGrow(c: Ctx, hs: seq<Entry>, i: nat, j: nat)
    requires Safe(c) && OneWindow(hs) && i <= j <= |hs|
    ensures At(c, hs, i).link.burstLastMs <= At(c, hs, j).link.burstLastMs
    decreases j - i
  {
    hide After, Step, Safe, Folded;
    if i < j {
      FoldedTimesGrow(c, hs, i, j - 1);
      AfterStep(c, hs, j - 1);
      FoldingAdvances(At(c, hs, j - 1), hs[j - 1]);
    }
  }

  /** In one window no burst is counted twice: each one folded completed later than those before it. */
  lemma BurstsCountOnce(c: Ctx, hs: seq<Entry>, i: nat, j: nat)
    requires Safe(c) && OneWindow(hs) && i < j < |hs|
    requires Folded(At(c, hs, i), hs[i]).Some? && Folded(At(c, hs, j), hs[j]).Some?
    ensures Folded(At(c, hs, i), hs[i]).value < Folded(At(c, hs, j), hs[j]).value
  {
    hide After, Step, Safe, Folded;
    AfterStep(c, hs, i);
    FoldingAdvances(At(c, hs, i), hs[i]);
    FoldedTimesGrow(c, hs, i + 1, j);
    FoldingAdvances(At(c, hs, j), hs[j]);
  }
}
