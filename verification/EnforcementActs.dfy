/**
 What a window does, not just what it may not do: what each check answers, when the alarm starts and what it
 plays, how long a grace or a silent radio holds it off.
 */
module EnforcementActs {
  import opened Machine
  import opened Events
  import opened Proximity
  import opened Enforcement
  import opened EnforcementSafety
  import opened LostLink
  import opened PhoneAway
  import Profiles

  // ---------------------------------------------------------------------------
  // What a check answers
  // ---------------------------------------------------------------------------

  /** What the readings of the window say of a stayNear or getAway commitment. */
  predicate KeptBy(e: Event, ms: seq<Measurement>) {
    var p := Initial(AnchorOf(e), 0, 0);
    if e.criteria == CRIT_STAY_NEAR then !Blind(p, ms) && Earned(p, Readings(ms)) == Some(Near)
    else Blind(p, ms) || Earned(p, Readings(ms)) == Some(Away)
  }

  /**
   In a window whose link was never seen, outside the donning grace: a check is met exactly when the window's
   own measurements say the commitment is kept, and when it is not the watch may punish.
   */
  lemma WindowIsJudged(c: Ctx, e: Event, utc: int, worn: bool, hs: seq<Entry>, checkUtc: int)
    requires Safe(c) && (e.criteria == CRIT_GET_AWAY || e.criteria == CRIT_STAY_NEAR) && OneWindow(hs)
    requires Safe(Enter(c, e, utc, worn)) && NeverSeen(Enter(c, e, utc, worn), hs)
    ensures var w := Enter(c, e, utc, worn);
      var d := After(w, hs);
      var next := Checked(d, checkUtc, false, None, true);
      !InDonningGrace(d, checkUtc) ==>
        && next.conditionMet == KeptBy(e, MeasuredIn(w, hs))
        && MayPunish(next) == !KeptBy(e, MeasuredIn(w, hs))
  {
    hide Safe, NotSeen, Step, Earned, Readings, Measured, Initial, Blind;
    var w := Enter(c, e, utc, worn);
    UnseenRun(w, hs, |hs|);
    assert hs[..|hs|] == hs;
    InitialIsFresh(AnchorOf(e));
    CriteriaAreEarned(Initial(AnchorOf(e), 0, 0), MeasuredIn(w, hs));
    WindowKeepsEvent(w, hs, |hs|);
  }

  /** In a phoneAway window of that kind, docked, a look sees the phone near exactly when the measurements earned NEAR. */
  lemma LooksAreMeasured(c: Ctx, e: Event, utc: int, worn: bool, hs: seq<Entry>)
    requires Safe(c) && e.criteria == CRIT_PHONE_AWAY && OneWindow(hs)
    requires Safe(Enter(c, e, utc, worn)) && NeverSeen(Enter(c, e, utc, worn), hs)
    ensures var w := Enter(c, e, utc, worn);
      var p, ms := Initial(AnchorOf(e), 0, 0), MeasuredIn(w, hs);
      KnownNear(After(w, hs), true) <==> !Blind(p, ms) && Earned(p, Readings(ms)) == Some(Near)
  {
    hide NotSeen, Step, Earned, Readings, Measured, Initial, Blind, OutputsFollow, GraceIsBounded, After, CriterionMet;
    var w := Enter(c, e, utc, worn);
    UnseenRun(w, hs, |hs|);
    assert hs[..|hs|] == hs;
    InitialIsFresh(AnchorOf(e));
    CriteriaAreEarned(Initial(AnchorOf(e), 0, 0), MeasuredIn(w, hs));
    VerdictIsEarned(Initial(AnchorOf(e), 0, 0), MeasuredIn(w, hs));
  }

  lemma InitialIsFresh(anchorId: Option<Uuid>)
    ensures Fresh(Initial(anchorId, 0, 0))
  {
  }

  /** The call that finds the commitment broken starts the event's own profile, and the pins show its first step. */
  lemma AlarmStarts(c: Ctx, h: Entry)
    requires Safe(c) && Profiles.Tickable(c.run) && c.conditionMet && !Step(c, h).conditionMet
    ensures var d := Step(c, h);
      && d.active.Some? && d.state == Enforcing && d.run == Profiles.Started(d.active.value.profile)
      && (d.active.value.profile < PROFILE_COUNT && !Silenced(d) ==>
            PinsOf(d) == Pins(d.active.value.profile < 6, d.active.value.profile >= 3))
  {
    hide CriterionHolds, PhoneNearSince, Timers, Lost, Ingested, Profiles.Ticked, Profiles.Stopped;
    StepIsSafe(c, h);
  }

  // ---------------------------------------------------------------------------
  // The donning grace
  // ---------------------------------------------------------------------------

  predicate NeverTouched(hs: seq<Entry>) {
    forall k :: 0 <= k < |hs| ==> !hs[k].Wear?
  }

  lemma StepKeepsDeadline(c: Ctx, h: Entry)
    requires Safe(c) && Profiles.Tickable(c.run) && !h.EnterWindow? && !h.ExitWindow? && !h.Wear?
    ensures Step(c, h).graceDeadlineUtc == c.graceDeadlineUtc && Step(c, h).worn == c.worn
  {
    hide CriterionHolds, PhoneNearSince, Timers, LossIsDue, Disproved, Ingested, Profiles.Ticked, Profiles.Started, OutputsFollow;
  }

  lemma {:induction false} DeadlineStands(c: Ctx, hs: seq<Entry>, k: nat)
    requires Safe(c) && OneWindow(hs) && NeverTouched(hs) && k <= |hs|
    ensures At(c, hs, k).graceDeadlineUtc == c.graceDeadlineUtc
  {
    hide Step, Safe, After;
    NoCalls(c, hs);
    if k > 0 {
      DeadlineStands(c, hs, k - 1);
      AfterStep(c, hs, k - 1);
      StepKeepsDeadline(At(c, hs, k - 1), hs[k - 1]);
    }
  }

  /** The grace of an event begins at `utc`: a window opened on a worn watch, or the watch put on in the window. */
  predicate GraceBegins(c: Ctx, h: Entry, utc: int) {
    match h
    case EnterWindow(e, utcIn, wornNow) => wornNow && e.donningGraceS > 0 && utcIn == utc
    case Wear(worn, utcWorn) => !c.worn && worn && c.active.Some? && c.active.value.donningGraceS > 0 && utcWorn == utc
    case _ => false
  }

  /**
   Counted from the moment the window opens on a worn watch, or the watch is put on in it, and while it stays
   on: a check within the event's donning grace is met, and from its end on the criterion alone decides.
   */
  lemma DonningGraceIsGranted(c: Ctx, h: Entry, utc: int, hs: seq<Entry>, at: int)
    requires Safe(c) && Profiles.Tickable(c.run) && GraceBegins(c, h, utc) && OneWindow(hs) && NeverTouched(hs)
    requires Safe(Step(c, h)) && Step(c, h).active.value.donningGraceS + utc != 0
    ensures var d := After(Step(c, h), hs); var e := Step(c, h).active.value;
      && d.active == Some(e)
      && forall wifi, ssid, docked ::
           if at < utc + e.donningGraceS then Checked(d, at, wifi, ssid, docked).conditionMet
           else Checked(d, at, wifi, ssid, docked).conditionMet == CriterionHolds(d, e, at, wifi, ssid, docked)
  {
    hide Safe, After, CriterionHolds, PhoneNearSince, Initial;
    var d := Step(c, h);
    DeadlineStands(d, hs, |hs|);
    WindowKeepsEvent(d, hs, |hs|);
    assert hs[..|hs|] == hs;
  }

  /** Every clock reading of the calls is before `utc`. */
  predicate CallsBefore(hs: seq<Entry>, utc: int) {
    forall k :: 0 <= k < |hs| ==> CallBefore(hs[k], utc)
  }

  predicate CallBefore(h: Entry, utc: int) {
    match h
    case Check(at, _, _, _) => at < utc
    case LinkUpdate(_, _, at) => at < utc
    case BurstUpdate(_, _, at) => at < utc
    case _ => true
  }

  lemma GraceStepIsMet(c: Ctx, h: Entry)
    requires Safe(c) && Profiles.Tickable(c.run) && !h.EnterWindow? && !h.ExitWindow? && !h.Wear?
    requires c.conditionMet && c.graceDeadlineUtc != 0 && CallBefore(h, c.graceDeadlineUtc)
    ensures Step(c, h).conditionMet
  {
    hide CriterionHolds, PhoneNearSince, Lost, Disproved, Ingested, Profiles.Ticked, Profiles.Started, OutputsFollow;
  }

  /** No alarm sounds in the grace of a window: until it ends, every call leaves the commitment met and the pins off. */
  lemma {:induction false} GraceIsSilent(c: Ctx, hs: seq<Entry>, k: nat)
    requires Safe(c) && c.conditionMet && c.graceDeadlineUtc != 0
    requires OneWindow(hs) && NeverTouched(hs) && CallsBefore(hs, c.graceDeadlineUtc) && k <= |hs|
    ensures At(c, hs, k).conditionMet && PinsOf(At(c, hs, k)) == Pins(false, false)
  {
    hide Step, Safe, After, CallBefore;
    NoCalls(c, hs);
    if k > 0 {
      GraceIsSilent(c, hs, k - 1);
      AfterStep(c, hs, k - 1);
      DeadlineStands(c, hs, k - 1);
      GraceStepIsMet(At(c, hs, k - 1), hs[k - 1]);
    }
    MetIsSilent(At(c, hs, k));
  }

  lemma MetIsSilent(c: Ctx)
    requires Safe(c) && c.conditionMet
    ensures PinsOf(c) == Pins(false, false)
  {
  }

  // ---------------------------------------------------------------------------
  // The lost-link grace
  // ---------------------------------------------------------------------------

  /** This update finds the link lost. */
  predicate FindsLost(c: Ctx, h: Entry) {
    h.LinkUpdate? && Watching(c, h.obs) && Lost(Armed(c.link, h.nowMs), h.obs.value, h.nowMs)
  }

  predicate NoLossYet(l: Link) {
    !l.grace && l.lossActivityMs == 0 && l.cooldownUntilMs == 0
  }

  lemma StillNoLoss(c: Ctx, h: Entry)
    requires Safe(c) && Profiles.Tickable(c.run) && !h.EnterWindow? && !h.ExitWindow?
    requires NoLossYet(c.link) && !FindsLost(c, h)
    ensures NoLossYet(Step(c, h).link)
  {
    hide LinkUpdated, Disproved, OutputsFollow, Checked, Lost;
    if h.LinkUpdate? {
      UpdateSetsTimers(c, h.obs, h.nowMs, h.utc);
      if Watching(c, h.obs) {
        LossLooksAtTheWindow(Armed(c.link, h.nowMs), c.conditionMet, h.obs.value, h.nowMs);
        NotLostNotDue(Timers(c, h.obs.value, h.nowMs), h.obs.value, h.nowMs);
      }
    } else {
      OtherCallsKeepTheTimers(c, h);
    }
  }

  lemma LossLooksAtTheWindow(l: Link, met: bool, o: Obs, nowMs: int)
    ensures Lost(Cleared(l, met), o, nowMs) == Lost(l, o, nowMs)
    ensures forall activity :: Lost(l.(lossActivityMs := activity), o, nowMs) == Lost(l, o, nowMs)
  {
  }

  lemma NotLostNotDue(l: Link, o: Obs, nowMs: int)
    requires !Lost(l, o, nowMs)
    ensures !LossIsDue(l, o, nowMs)
  {
  }

  ghost predicate FirstLossAt(c: Ctx, hs: seq<Entry>, k: nat)
    requires Safe(c) && k < |hs|
  {
    FindsLost(At(c, hs, k), hs[k]) && forall j :: 0 <= j < k ==> !FindsLost(At(c, hs, j), hs[j])
  }

  lemma {:induction false} NoLossAlong(c: Ctx, hs: seq<Entry>, k: nat)
    requires Safe(c) && OneWindow(hs) && k <= |hs| && NoLossYet(c.link)
    requires forall j :: 0 <= j < k ==> !FindsLost(At(c, hs, j), hs[j])
    ensures NoLossYet(At(c, hs, k).link)
  {
    hide Step, Safe, After, FindsLost, NoLossYet;
    NoCalls(c, hs);
    if k > 0 {
      NoLossAlong(c, hs, k - 1);
      AfterStep(c, hs, k - 1);
      StillNoLoss(At(c, hs, k - 1), hs[k - 1]);
    }
  }

  /** A burst completed after the last activity measured the user within the AWAY threshold. */
  predicate ContradictsLoss(c: Ctx, o: Obs) {
    o.haveResult && o.resultMs > o.lastActivityMs && o.resultCm <= c.prox.awayEnterCm
  }

  /**
   The first loss a getAway window's updates find, while the alarm sounds and less than ten seconds after the
   last activity, silences it, unless a later burst contradicts the loss; at ten seconds AWAY is concluded.
   */
  lemma FirstLossSilences(c: Ctx, hs: seq<Entry>, k: nat)
    requires Safe(c) && NoLossYet(c.link) && OneWindow(hs) && k < |hs| && FirstLossAt(c, hs, k)
    requires At(c, hs, k).active.value.criteria == CRIT_GET_AWAY && !At(c, hs, k).conditionMet
    requires hs[k].nowMs >= 0 && hs[k].obs.value.lastActivityMs != 0
    ensures var d, o := At(c, hs, k), hs[k].obs.value;
      var silence := hs[k].nowMs - o.lastActivityMs;
      && silence >= LINK_LOST_DETECT_MS
      && (silence < LINK_LOST_AWAY_MS ==> Silenced(At(c, hs, k + 1)) == !ContradictsLoss(d, o))
      && (silence >= LINK_LOST_AWAY_MS ==> Conclusion(d, hs[k]) == Some(o.lastActivityMs))
  {
    hide Step, Safe, After, FindsLost, LinkUpdated;
    AfterStep(c, hs, k);
    NoLossAlong(c, hs, k);
    LossOpensGrace(At(c, hs, k), hs[k]);
  }

  lemma LossOpensGrace(c: Ctx, h: Entry)
    requires Safe(c) && Profiles.Tickable(c.run) && NoLossYet(c.link) && FindsLost(c, h)
    requires c.active.value.criteria == CRIT_GET_AWAY && !c.conditionMet && h.nowMs >= 0 && h.obs.value.lastActivityMs != 0
    ensures var silence := h.nowMs - h.obs.value.lastActivityMs;
      && silence >= LINK_LOST_DETECT_MS
      && (silence < LINK_LOST_AWAY_MS ==> Silenced(Step(c, h)) == !ContradictsLoss(c, h.obs.value))
      && (silence >= LINK_LOST_AWAY_MS ==> Conclusion(c, h) == Some(h.obs.value.lastActivityMs))
  {
    hide LinkUpdated, OutputsFollow;
    UpdateSetsTimers(c, h.obs, h.nowMs, h.utc);
  }

  /** A burst that contradicts the loss ends the silence and starts the profile over, the commitment still unmet. */
  lemma DisproofResumes(c: Ctx, h: Entry)
    requires Safe(c) && Profiles.Tickable(c.run) && Silenced(c) && !c.conditionMet && h.LinkUpdate? && Watching(c, h.obs)
    requires !ConcludesLoss(c, h.obs, h.nowMs)
    requires h.obs.value.haveResult && h.obs.value.resultMs > c.link.graceAfterMs && h.obs.value.resultCm <= c.prox.awayEnterCm
    ensures MayPunish(Step(c, h)) && Step(c, h).run == Profiles.Started(c.active.value.profile)
  {
    hide LossIsDue, Lost, Profiles.Started, OutputsFollow;
  }

  // ---------------------------------------------------------------------------
  // A radio gone silent
  // ---------------------------------------------------------------------------

  /** A poll that found no burst since the last one. */
  function IdlePoll(c: Ctx, utc: int): Ctx {
    Checked(PollAbstained(c), utc, false, None, true)
  }

  function IdlePolls(c: Ctx, utcs: seq<int>): Ctx {
    if utcs == [] then c else IdlePoll(IdlePolls(c, utcs[..|utcs| - 1]), utcs[|utcs| - 1])
  }

  /** Seconds from one poll to the last of these, each made when the interval before it has run out. */
  function IdleTimeS(c: Ctx, utcs: seq<int>): nat {
    if utcs == [] then 0
    else IdleTimeS(c, utcs[..|utcs| - 1]) + PollIntervalS(IdlePolls(c, utcs[..|utcs| - 1]))
  }

  /** Just polled with NEAR known: stayNear met and getAway not. */
  predicate NearAndJudged(c: Ctx, criterion: U8) {
    && c.active.Some? && c.active.value.criteria == criterion
    && (criterion == CRIT_STAY_NEAR || criterion == CRIT_GET_AWAY)
    && c.prox.haveVerdict && c.prox.verdict == Near && c.prox.abstainRun == 0
    && c.link.burstsSincePoll == 0 && c.graceDeadlineUtc == 0
    && c.conditionMet == (criterion == CRIT_STAY_NEAR)
  }

  /** What `n` idle polls leave: the same window, `n` failures in a row, and from the sixth on the opposite answer. */
  predicate IdleFor(c: Ctx, d: Ctx, n: nat) {
    && d.active == c.active && d.prox == c.prox.(abstainRun := Saturate(n, U8_MAX))
    && d.link == c.link && d.graceDeadlineUtc == c.graceDeadlineUtc
    && (n <= ABSTAIN_MAX_CONSECUTIVE ==> d.conditionMet == c.conditionMet)
    && (n > ABSTAIN_MAX_CONSECUTIVE ==> d.conditionMet != c.conditionMet)
  }

  lemma {:induction false} IdlePollsAccumulate(c: Ctx, criterion: U8, utcs: seq<int>)
    requires NearAndJudged(c, criterion)
    ensures IdleFor(c, IdlePolls(c, utcs), |utcs|)
  {
    hide Profiles.Started, Profiles.Stopped;
    if utcs != [] {
      IdlePollsAccumulate(c, criterion, utcs[..|utcs| - 1]);
    }
  }

  /**
   A radio that goes silent while NEAR is the last word: the sixth poll in a row without a burst turns the
   answer, 110 s after the last good poll for getAway, which it satisfies, and 18 minutes for stayNear,
   which it breaks; before that the answer stands.
   */
  lemma SilentRadioIsNoticed(c: Ctx, criterion: U8, utcs: seq<int>)
    requires NearAndJudged(c, criterion)
    ensures IdlePolls(c, utcs).conditionMet == ((criterion == CRIT_STAY_NEAR) == (|utcs| < 6))
    ensures 1 <= |utcs| <= 6 ==> IdleTimeS(c, utcs) == if criterion == CRIT_STAY_NEAR then 180 * |utcs| else 60 + 10 * (|utcs| - 1)
  {
    hide IdlePolls, IdleFor;
    IdlePollsAccumulate(c, criterion, utcs);
    IdleTimes(c, criterion, utcs);
    IdleAnswer(c, IdlePolls(c, utcs), |utcs|);
  }

  lemma IdleAnswer(c: Ctx, d: Ctx, n: nat)
    requires IdleFor(c, d, n)
    ensures d.conditionMet == (c.conditionMet == (n < 6))
  {
  }

  lemma {:induction false} IdleTimes(c: Ctx, criterion: U8, utcs: seq<int>)
    requires NearAndJudged(c, criterion)
    ensures criterion == CRIT_STAY_NEAR && |utcs| <= 6 ==> IdleTimeS(c, utcs) == 180 * |utcs|
    ensures criterion == CRIT_GET_AWAY && 1 <= |utcs| <= 6 ==> IdleTimeS(c, utcs) == 60 + 10 * (|utcs| - 1)
  {
    hide IdlePolls;
    if utcs != [] {
      IdleTimes(c, criterion, utcs[..|utcs| - 1]);
      IdlePollsAccumulate(c, criterion, utcs[..|utcs| - 1]);
    }
  }

  // ---------------------------------------------------------------------------
  // What the alarm plays
  // ---------------------------------------------------------------------------

  /** This update ends a silence because a burst contradicts the loss. */
  predicate Resumes(c: Ctx, h: Entry) {
    && h.LinkUpdate? && Watching(c, h.obs) && !ConcludesLoss(c, h.obs, h.nowMs)
    && Timers(c, h.obs.value, h.nowMs).grace && Disproved(c, Timers(c, h.obs.value, h.nowMs), h.obs.value)
  }

  function TickOf(h: Entry): seq<U32> {
    if h.Tick? then [h.dt] else []
  }

  /** The ticks of the run's calls from the `i`-th on, in order. */
  function TicksFrom(hs: seq<Entry>, i: nat): seq<U32>
    requires i <= |hs|
  {
    if i == |hs| then [] else TicksFrom(hs[..|hs| - 1], i) + TickOf(hs[|hs| - 1])
  }

  lemma {:induction false} OneMoreTick(r: Profiles.Run, dts: seq<U32>, dt: U32)
    requires Profiles.Tickable(r)
    ensures Profiles.Tickable(Profiles.TickAll(r, dts))
    ensures Profiles.TickAll(r, dts + [dt]) == Profiles.Ticked(Profiles.TickAll(r, dts), dt)
    decreases |dts|
  {
    hide Profiles.Ticked, Profiles.Tickable;
    if dts == [] {
      assert ([] + [dt])[1..] == [];
      assert Profiles.TickAll(Profiles.Ticked(r, dt), []) == Profiles.Ticked(r, dt);
    } else {
      assert (dts + [dt])[1..] == dts[1..] + [dt];
      OneMoreTick(Profiles.Ticked(r, dts[0]), dts[1..], dt);
    }
  }

  /** While the commitment stays unmet, no call but a tick moves the run, and a disproof starts it over. */
  lemma AlarmStep(c: Ctx, h: Entry)
    requires Safe(c) && Profiles.Tickable(c.run) && !c.conditionMet && !Step(c, h).conditionMet && !h.EnterWindow? && !h.ExitWindow?
    ensures Step(c, h).run ==
      if Resumes(c, h) then Profiles.Started(c.active.value.profile)
      else if h.Tick? then Profiles.Ticked(c.run, h.dt)
      else c.run
  {
    hide LinkUpdated, Resumes, CriterionHolds, PhoneNearSince, Ingested, Profiles.Ticked, Profiles.Started, Profiles.Alive, Profiles.Quiet;
    match h
    case LinkUpdate(obs, nowMs, utc) => UpdateMovesRun(c, h);
    case _ => OnlyUpdatesResume(c, h);
  }

  lemma OnlyUpdatesResume(c: Ctx, h: Entry)
    ensures !h.LinkUpdate? ==> !Resumes(c, h)
  {
  }

  lemma UpdateMovesRun(c: Ctx, h: Entry)
    requires h.LinkUpdate? && !c.conditionMet && !LinkUpdated(c, h.obs, h.nowMs, h.utc).conditionMet
    ensures LinkUpdated(c, h.obs, h.nowMs, h.utc).run
      == if Resumes(c, h) then Profiles.Started(c.active.value.profile) else c.run
  {
    hide CriterionHolds, PhoneNearSince, Timers, LossIsDue, Profiles.Started, ForcedAway;
  }

  /** The alarm starts at call `i`, and the commitment stays unmet, with no fresh start, up to call `k`. */
  ghost predicate SoundsFrom(c: Ctx, hs: seq<Entry>, i: nat, k: nat)
    requires Safe(c) && i < k <= |hs|
  {
    && ((At(c, hs, i).conditionMet && !At(c, hs, i + 1).conditionMet) || (!At(c, hs, i).conditionMet && Resumes(At(c, hs, i), hs[i])))
    && (forall j :: i < j <= k ==> !At(c, hs, j).conditionMet)
    && (forall j :: i < j < k ==> !Resumes(At(c, hs, j), hs[j]))
  }

  /** What plays is the event's own profile, fed every tick since it started and nothing else. */
  lemma {:induction false} AlarmPlaysTheProfile(c: Ctx, hs: seq<Entry>, i: nat, k: nat)
    requires Safe(c) && c.active.Some? && OneWindow(hs) && i < k <= |hs| && SoundsFrom(c, hs, i, k)
    ensures Profiles.Tickable(Profiles.Started(c.active.value.profile))
    ensures At(c, hs, k).run == Profiles.TickAll(Profiles.Started(c.active.value.profile), TicksFrom(hs[..k], i + 1))
    decreases k
  {
    hide Safe, After, Step, Resumes, Profiles.Ticked, Profiles.Started, Profiles.Tickable, TicksFrom;
    StartIsTickable(c.active.value.profile);
    WindowKeepsEvent(c, hs, k - 1);
    AfterStep(c, hs, k - 1);
    assert !At(c, hs, k).conditionMet;
    if k == i + 1 {
      NoTicks(hs[..k]);
      FirstNote(At(c, hs, i), hs[i]);
    } else {
      AlarmPlaysTheProfile(c, hs, i, k - 1);
      assert !At(c, hs, k - 1).conditionMet;
      AlarmStep(At(c, hs, k - 1), hs[k - 1]);
      NextNote(Profiles.Started(c.active.value.profile), hs, i + 1, k - 1);
    }
  }

  lemma StartIsTickable(p: U8)
    ensures Profiles.Tickable(Profiles.Started(p)) && Profiles.Started(p).profile == p
  {
  }

  lemma NoTicks(hs: seq<Entry>)
    ensures TicksFrom(hs, |hs|) == []
  {
  }

  lemma NextNote(r: Profiles.Run, hs: seq<Entry>, i: nat, k: nat)
    requires Profiles.Tickable(r) && i <= k < |hs|
    ensures var before := Profiles.TickAll(r, TicksFrom(hs[..k], i));
      && Profiles.Tickable(before)
      && Profiles.TickAll(r, TicksFrom(hs[..k + 1], i)) == if hs[k].Tick? then Profiles.Ticked(before, hs[k].dt) else before
  {
    hide Profiles.Ticked, Profiles.Tickable, Profiles.TickAll;
    var h, dts := hs[k], TicksFrom(hs[..k], i);
    assert hs[..k + 1][..k] == hs[..k];
    OneMoreTick(r, dts, if h.Tick? then h.dt else 0);
    assert dts + [] == dts;
  }

  lemma FirstNote(c: Ctx, h: Entry)
    requires Safe(c) && Profiles.Tickable(c.run) && c.active.Some? && !h.EnterWindow? && !h.ExitWindow? && !Step(c, h).conditionMet
    requires c.conditionMet || Resumes(c, h)
    ensures Step(c, h).run == Profiles.Started(c.active.value.profile)
  {
    hide Step, Resumes, Profiles.Started;
    if c.conditionMet {
      AlarmStarts(c, h);
      StepKeepsEvent(c, h);
    } else {
      AlarmStep(c, h);
    }
  }

  lemma StepKeepsEvent(c: Ctx, h: Entry)
    requires Safe(c) && Profiles.Tickable(c.run) && !h.EnterWindow? && !h.ExitWindow?
    ensures Step(c, h).active == c.active
  {
    hide LinkUpdated;
    if h.LinkUpdate? {
      UpdateSetsTimers(c, h.obs, h.nowMs, h.utc);
    } else {
      OtherCallsKeepTheTimers(c, h);
    }
  }

  /** For the first day of it: the alarm stands on the profile's timeline exactly at the sum of those ticks. */
  lemma AlarmIsOnTime(c: Ctx, hs: seq<Entry>, i: nat, k: nat)
    requires Safe(c) && c.active.Some? && OneWindow(hs) && i < k <= |hs| && SoundsFrom(c, hs, i, k)
    requires c.active.value.profile < PROFILE_COUNT && Profiles.Sum(TicksFrom(hs[..k], i + 1)) < Profiles.DAY_MS
    ensures Profiles.Running(At(c, hs, k).run, Profiles.Sum(TicksFrom(hs[..k], i + 1)))
    ensures At(c, hs, k).run.profile == c.active.value.profile
  {
    hide Safe, SoundsFrom, TicksFrom, Profiles.Started, Profiles.Sum, Profiles.TickAll;
    AlarmPlaysTheProfile(c, hs, i, k);
    StartIsTickable(c.active.value.profile);
    Profiles.TimelineFromTheStart(c.active.value.profile, TicksFrom(hs[..k], i + 1));
    KeepsProfile(Profiles.Started(c.active.value.profile), TicksFrom(hs[..k], i + 1));
  }

  lemma {:induction false} KeepsProfile(r: Profiles.Run, dts: seq<U32>)
    requires Profiles.Tickable(r)
    ensures Profiles.TickAll(r, dts).profile == r.profile
    decreases |dts|
  {
    hide Profiles.Ticked, Profiles.Tickable;
    if dts != [] {
      TickKeepsProfile(r, dts[0]);
      KeepsProfile(Profiles.Ticked(r, dts[0]), dts[1..]);
    }
  }

  lemma TickKeepsProfile(r: Profiles.Run, dt: U32)
    requires Profiles.Tickable(r)
    ensures Profiles.Ticked(r, dt).profile == r.profile
  {
    hide Profiles.Consume;
    if !r.finished && Profiles.InStep(r) {
      ConsumeKeepsProfile(r.(stepElapsedMs := (r.stepElapsedMs + dt) % Profiles.WRAP));
    }
  }

  lemma {:induction false} ConsumeKeepsProfile(r: Profiles.Run)
    requires Profiles.InStep(r)
    ensures Profiles.Consume(r).profile == r.profile
    decreases r.stepElapsedMs
  {
    hide Profiles.Table, Profiles.StepDuration;
    var d := Profiles.Table(r.profile);
    var dur := Profiles.StepDuration(d, r.stepIndex, r.cycles);
    if dur != Profiles.CONTINUOUS && r.stepElapsedMs >= dur {
      Profiles.StepsTakeTime(r.profile, r.stepIndex, r.cycles);
      if r.stepIndex + 1 < |d.steps| {
        ConsumeKeepsProfile(r.(stepElapsedMs := r.stepElapsedMs - dur, stepIndex := r.stepIndex + 1));
      } else if d.loops {
        ConsumeKeepsProfile(r.(stepElapsedMs := r.stepElapsedMs - dur, stepIndex := 0, cycles := (r.cycles + 1) % Profiles.WRAP));
      }
    }
  }

  // ---------------------------------------------------------------------------
  // The phone-away alarm sounds
  // ---------------------------------------------------------------------------

  /** Looks that all see the phone near keep the start of the tolerance. */
  lemma {:induction false} NearKeepsSince(c: Ctx, hs: seq<Entry>, j: nat, k: nat)
    requires Safe(c) && PhoneWindow(c) && OneWindow(hs) && j <= k <= |hs|
    requires At(c, hs, j).phoneNearSinceUtc != 0 && NearThroughout(c, hs, j, k)
    ensures At(c, hs, k).phoneNearSinceUtc == At(c, hs, j).phoneNearSinceUtc
    decreases k
  {
    hide Safe, After, LookOf;
    if j < k {
      NearKeepsSince(c, hs, j, k - 1);
      RunFollowsLook(c, hs, k - 1);
    }
  }

  /**
   In a phone-away window: after a look at call `j` that starts the tolerance, and looks that all see the phone
   near, the look at call `k` leaves the alarm condition unmet exactly when a minute has passed since.
   */
  lemma PhoneAlarmIsRaisedIff(c: Ctx, hs: seq<Entry>, j: nat, k: nat)
    requires Safe(c) && PhoneWindow(c) && OneWindow(hs) && j <= k < |hs|
    requires LookAt(c, hs, j).Some? && LookAt(c, hs, j).value.utc != 0 && At(c, hs, j).phoneNearSinceUtc == 0
    requires LookAt(c, hs, k).Some? && NearThroughout(c, hs, j, k + 1)
    ensures !At(c, hs, k + 1).conditionMet <==> LookAt(c, hs, k).value.utc - LookAt(c, hs, j).value.utc >= PHONE_AWAY_TOLERANCE_S
  {
    hide Safe, After, LookOf;
    RunFollowsLook(c, hs, j);
    RunFollowsLook(c, hs, k);
    if j < k {
      NearKeepsSince(c, hs, j + 1, k);
    }
  }

  // ---------------------------------------------------------------------------
  // A fresh burst is folded in
  // ---------------------------------------------------------------------------

  lemma {:induction false} FoldedAreEarlier(c: Ctx, hs: seq<Entry>, k: nat, t: int)
    requires Safe(c) && OneWindow(hs) && k <= |hs| && c.link.burstLastMs < t
    requires forall j :: 0 <= j < k && Folded(At(c, hs, j), hs[j]).Some? ==> Folded(At(c, hs, j), hs[j]).value < t
    ensures At(c, hs, k).link.burstLastMs < t
  {
    hide After, Step, Safe, Folded;
    NoCalls(c, hs);
    if k > 0 {
      FoldedAreEarlier(c, hs, k - 1, t);
      AfterStep(c, hs, k - 1);
      FoldingAdvances(At(c, hs, k - 1), hs[k - 1]);
    }
  }

  /** A reported burst of this window that completed later than every burst folded so far is folded into the verdict. */
  lemma FreshBurstIsFolded(c: Ctx, hs: seq<Entry>, k: nat)
    requires Safe(c) && OneWindow(hs) && k < |hs| && hs[k].BurstUpdate? && Watching(At(c, hs, k), hs[k].burst)
    requires hs[k].burst.value.haveResult && hs[k].burst.value.resultMs > c.link.burstLastMs
    requires hs[k].burst.value.resultMs >= Armed(At(c, hs, k).link, hs[k].atMs).windowStartMs
    requires forall j :: 0 <= j < k && Folded(At(c, hs, j), hs[j]).Some? ==>
      Folded(At(c, hs, j), hs[j]).value < hs[k].burst.value.resultMs
    ensures At(c, hs, k + 1).prox == Ingested(At(c, hs, k).prox, Reading(hs[k].burst.value.resultCm))
  {
    hide After, Safe, Ingested, Checked;
    FoldedAreEarlier(c, hs, k, hs[k].burst.value.resultMs);
    AfterStep(c, hs, k);
    BurstIngests(At(c, hs, k), hs[k].burst, hs[k].atMs, hs[k].utcBurst);
  }

  // ---------------------------------------------------------------------------
  // Network names
  // ---------------------------------------------------------------------------

  predicate ZeroFree(name: seq<U8>) {
    forall i :: 0 <= i < |name| ==> name[i] != 0
  }

  /** A name in a zero-terminated buffer reads as itself, and a longer one as its first `max` bytes. */
  lemma {:induction false} TextOfName(name: seq<U8>, rest: seq<U8>, max: nat)
    requires ZeroFree(name) && (rest == [] || rest[0] == 0)
    ensures Text(name + rest, max) == if |name| <= max then name else name[..max]
    decreases max
  {
    if name != [] && max > 0 {
      assert (name + rest)[1..] == name[1..] + rest;
      TextOfName(name[1..], rest, max - 1);
      assert |name| > max ==> name[..max] == [name[0]] + name[1..][..max - 1];
    } else {
      assert name + rest == rest || max == 0;
    }
  }

  /**
   A check of the two network criteria: for an event that names a network, "on" is met exactly when the watch
   is on a network of that name, and "off" exactly when it is not.
   */
  lemma NetworkCriteria(c: Ctx, e: Event, utc: int, wifi: bool, ssid: Option<seq<U8>>, docked: bool)
    requires e.ssidLen > 0 && ZeroFree(Ssid(e)) && e.wifiSsid[e.ssidLen] == 0
    requires ssid.Some? ==> ZeroFree(ssid.value) && |ssid.value| <= MAX_SSID_LEN
    requires c.active == Some(e) && !InDonningGrace(c, utc)
    ensures var onIt := wifi && ssid == Some(Ssid(e));
      && (e.criteria == CRIT_GET_ON_WIFI ==> Checked(c, utc, wifi, ssid, docked).conditionMet == onIt)
      && (e.criteria == CRIT_GET_OFF_WIFI ==> Checked(c, utc, wifi, ssid, docked).conditionMet == !onIt)
  {
    hide Text;
    TextOfName(Ssid(e), e.wifiSsid[e.ssidLen..], MAX_SSID_LEN);
    assert Ssid(e) + e.wifiSsid[e.ssidLen..] == e.wifiSsid;
    if ssid.Some? {
      TextOfName(ssid.value, [], MAX_SSID_LEN);
      assert ssid.value + [] == ssid.value;
    }
  }
}
