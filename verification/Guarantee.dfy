/**
 The self-binding guarantee for what the firmware calls: whole pushes, whole promotion loops and settings
 writes, in any order and number.
 */
module Guarantee {
  import opened Machine
  import opened Events
  import opened Integrity
  import opened IntegrityInvariants
  import opened Commitment
  import opened PushEffects
  import opened Watch

  datatype Call =
    | PushCall(proposed: seq<Event>, at: Moment)
    | PromoteCall(now: Moment)
    | WindowCall(minutes: U16)

  ghost function AfterCall(g: Gate, c: Call): Gate {
    match c
    case PushCall(proposed, at) => AfterPush(g, proposed, at)
    case PromoteCall(now) => PromoteFrom(g, 0, now).0
    case WindowCall(minutes) => if minutes <= g.settleWindowMin then g.(settleWindowMin := minutes) else g
  }

  /** The decisions a call makes. */
  ghost function StepsOf(g: Gate, c: Call): seq<Step> {
    match c
    case PushCall(proposed, at) => PushSteps(g, proposed, at)
    case PromoteCall(now) => PromoteSteps(|g.pending|, now)
    case WindowCall(minutes) => [ShrinkWindow(minutes)]
  }

  ghost function AfterCalls(g: Gate, cs: seq<Call>): Gate
    decreases |cs|
  {
    if cs == [] then g else AfterCalls(AfterCall(g, cs[0]), cs[1..])
  }

  ghost function AllSteps(g: Gate, cs: seq<Call>): seq<Step>
    decreases |cs|
  {
    if cs == [] then [] else StepsOf(g, cs[0]) + AllSteps(AfterCall(g, cs[0]), cs[1..])
  }

  lemma OneTurn(g: Gate, slot: nat, at: Moment)
    requires slot < |g.pending|
    ensures Next(g, PromoteSlot(slot, at)).0 == Promoted(g, slot, at).0
    ensures |Promoted(g, slot, at).0.pending| == |g.pending|
  {
    hide Promoted;
    StepKeepsQueueLength(g, PromoteSlot(slot, at));
  }

  /** The promotion loop from a slot on is the run of its turns. */
  lemma {:induction false} PromotionIsARun(g: Gate, slot: nat, at: Moment)
    requires slot <= |g.pending|
    ensures PromoteFrom(g, slot, at).0 == Run(g, PromoteSteps(|g.pending|, at)[slot..])
    decreases |g.pending| - slot
  {
    hide Promoted, Next;
    var steps := PromoteSteps(|g.pending|, at);
    if slot < |g.pending| {
      OneTurn(g, slot, at);
      assert steps[slot..][0] == PromoteSlot(slot, at) && steps[slot..][1..] == steps[slot + 1..];
      PromotionIsARun(Promoted(g, slot, at).0, slot + 1, at);
    }
  }

  lemma CallIsARun(g: Gate, c: Call)
    ensures AfterCall(g, c) == Run(g, StepsOf(g, c))
  {
    hide PromoteFrom, PromoteSteps, PushSteps;
    match c
    case PushCall(proposed, at) =>
    case PromoteCall(now) =>
      PromotionIsARun(g, 0, now);
      assert PromoteSteps(|g.pending|, now)[0..] == PromoteSteps(|g.pending|, now);
    case WindowCall(minutes) =>
      assert Run(Next(g, ShrinkWindow(minutes)).0, []) == Next(g, ShrinkWindow(minutes)).0;
  }

  /** Any sequence of calls is the run of all its decisions. */
  lemma {:induction false} CallsAreARun(g: Gate, cs: seq<Call>)
    ensures AfterCalls(g, cs) == Run(g, AllSteps(g, cs))
    decreases |cs|
  {
    hide AfterCall, StepsOf;
    if cs != [] {
      var next := AfterCall(g, cs[0]);
      CallIsARun(g, cs[0]);
      CallsAreARun(next, cs[1..]);
      RunOfConcat(g, StepsOf(g, cs[0]), AllSteps(next, cs[1..]));
    }
  }

  /**
   In any sequence of pushes, promotions and settle-window writes: a settled event is still stored exactly
   as it was, or among the decisions taken the first that touched it has one of the four reasons.
   */
  lemma SettledEventsSurviveCalls(g: Gate, cs: seq<Call>, id: Uuid, e: Event)
    requires Sound(g) && Settled(g, id, e)
    ensures Find(AfterCalls(g, cs).sched, id) == Some(e)
      || exists k :: 0 <= k < |AllSteps(g, cs)| && FirstTouch(g, AllSteps(g, cs), k, id, e) && Explained(g, AllSteps(g, cs), k, id, e)
  {
    hide Sound, Settled, FirstTouch, Explained, Run, Find;
    CallsAreARun(g, cs);
    SettledEventsAreKept(g, AllSteps(g, cs), id, e);
  }

  /** Whatever the calls, the tables keep their shape and every settled baseline stays the stored event. */
  lemma CallsKeepSound(g: Gate, cs: seq<Call>)
    requires Sound(g)
    ensures Sound(AfterCalls(g, cs))
  {
    hide Sound, Run;
    CallsAreARun(g, cs);
    RunKeepsSound(g, AllSteps(g, cs));
  }

  // ---------------------------------------------------------------------------
  // Lives without a pass
  // ---------------------------------------------------------------------------

  /** Live and saved tables are sound, and hold the same schedule. */
  ghost predicate BothSound(w: Watch) {
    Sound(w.gate) && Sound(w.saved) && w.gate.sched == w.saved.sched
  }

  lemma {:induction false} UncountedKeepsSchedule(g: Gate, slot: nat, at: Moment)
    requires slot <= |g.pending| && PromoteFrom(g, slot, at).1 == 0
    ensures PromoteFrom(g, slot, at).0.sched == g.sched
    decreases |g.pending| - slot
  {
    hide Expired, NoteEdit, Upserted, Deleted;
    if slot < |g.pending| {
      OneTurn(g, slot, at);
      UncountedKeepsSchedule(Promoted(g, slot, at).0, slot + 1, at);
    }
  }

  lemma RejectedKeepsSchedule(g: Gate, proposed: seq<Event>, at: Moment)
    requires Shape(g) && LoosensActive(proposed, at)
    ensures AfterPush(g, proposed, at).sched == g.sched
  {
    hide Run, LoosensActive, Shape;
    PreparedKeepsSchedule(g, at);
    assert PushSteps(g, proposed, at) == Preamble(at);
  }

  lemma RestoredIsSound(w: Watch)
    requires Sound(w.saved)
    ensures Sound(Restored(w))
  {
    hide SealAll;
    RestoredShape(w);
    SealKeepsBaselines(w.saved, 0);
  }

  lemma SettingsAreSound(g: Gate, s: Gate, minutes: U16, allowance: U8)
    requires Sound(g) && Sound(s) && g.sched == s.sched
    ensures Sound(g.(settleWindowMin := minutes, allowance := allowance))
    ensures Sound(g.(settleWindowMin := minutes, allowance := allowance).(sched := s.sched))
    ensures Sound(g.(sched := s.sched))
  {
  }

  lemma HappeningKeepsBothSound(w: Watch, h: Happening)
    requires Runs(w) && BothSound(w) && !h.SpendAttempt?
    ensures BothSound(Happens(w, h))
  {
    hide Shape, BaselinesCurrent, Sound, PushSteps, Run, SealAll, PromoteFrom, LoosensActive;
    match h
    case Push(proposed, active, utc, tz) =>
      var at := MomentOf(w, h);
      RunKeepsSound(w.gate, PushSteps(w.gate, proposed, at));
      if LoosensActive(proposed, at) {
        RejectedKeepsSchedule(w.gate, proposed, at);
      }
    case AllowanceWrite(allowance) => SettingsAreSound(w.gate, w.saved, w.gate.settleWindowMin, allowance);
    case WindowWrite(minutes) =>
      SettingsAreSound(w.gate, w.saved, Clamp(minutes), w.gate.allowance);
      SettingsAreSound(w.gate, w.saved, w.gate.settleWindowMin, w.gate.allowance);
    case Reboot(utc, tz) => BootKeepsBothSound(w, utc, tz);
    case _ =>
  }

  lemma BootKeepsBothSound(w: Watch, utc: int, tz: int)
    requires Runs(w) && BothSound(w)
    ensures BothSound(Happens(w, Reboot(utc, tz)))
  {
    hide Shape, BaselinesCurrent, Sound, Run, SealAll, PromoteFrom;
    var g, at := Restored(w), BootMoment(w, utc, tz);
    RestoredIsSound(w);
    CallIsARun(g, PromoteCall(at));
    RunKeepsSound(g, StepsOf(g, PromoteCall(at)));
    if PromoteFrom(g, 0, at).1 == 0 {
      UncountedKeepsSchedule(g, 0, at);
    }
  }

  /**
   In every life without a pass, reboots into older saved state included: every settled baseline, live or
   saved, is the stored event with that id, so the guarantee starts afresh after every boot.
   */
  lemma {:induction false} LivesStaySound(hs: seq<Happening>)
    requires forall k :: 0 <= k < |hs| ==> !hs[k].SpendAttempt?
    ensures BothSound(Lived(hs))
    decreases |hs|
  {
    hide BothSound, Happens;
    if hs == [] {
      NewIsBothSound();
    } else {
      LivesStaySound(hs[..|hs| - 1]);
      HappeningKeepsBothSound(Lived(hs[..|hs| - 1]), hs[|hs| - 1]);
    }
  }

  lemma NewIsBothSound()
    ensures BothSound(New())
  {
  }

  // ---------------------------------------------------------------------------
  // The first touch in a life with reboots
  // ---------------------------------------------------------------------------

  /** Among the decisions of this push is the first touch, and it has a reason other than a promotion. */
  ghost predicate PushTouches(g: Gate, proposed: seq<Event>, at: Moment, id: Uuid, e: Event) {
    var steps := PushSteps(g, proposed, at);
    exists k :: 0 <= k < |steps| && IsPushStep(steps[k]) && FirstTouch(g, steps, k, id, e) && Explained(g, steps, k, id, e)
  }

  /** The boot restored a record from before the event settled. */
  ghost predicate RecordLost(w: Watch, id: Uuid, e: Event) {
    !Settled(w.saved, id, e)
  }

  /** The boot would promote an entry for this event, and that very entry has waited a powered-on day. */
  ghost predicate PromotesAWaiter(hs: seq<Happening>, id: Uuid) {
    exists slot: nat, j: nat, q: Queuing ::
      && DueAtBoot(hs, slot) && Lived(hs).saved.pending[slot].targetId == id
      && j < |hs| && QueuedByPush(hs, j, q) && q.entry == Lived(hs).saved.pending[slot]
      && ADayOld(hs, q) && AllADayOld(hs, q.entry)
  }

  /** Why the happening after the life `hs` may be the first to touch the settled event. */
  ghost predicate LifeReason(hs: seq<Happening>, h: Happening, id: Uuid, e: Event) {
    match h
    case Push(proposed, active, utc, tz) => PushTouches(Lived(hs).gate, proposed, MomentOf(Lived(hs), h), id, e)
    case Reboot(utc, tz) => RecordLost(Lived(hs), id, e) || PromotesAWaiter(hs, id)
    case _ => false
  }

  lemma PushStepsArePushSteps(g: Gate, proposed: seq<Event>, at: Moment, k: nat)
    requires k < |PushSteps(g, proposed, at)|
    ensures IsPushStep(PushSteps(g, proposed, at)[k])
  {
    hide LoosensActive, MissingIds;
  }

  lemma PushHasReason(g: Gate, proposed: seq<Event>, at: Moment, id: Uuid, e: Event)
    requires Sound(g) && Settled(g, id, e)
    ensures Settled(AfterPush(g, proposed, at), id, e) || PushTouches(g, proposed, at, id, e)
  {
    hide Sound, Settled, PushSteps, Run, FirstTouch, Explained, IsPushStep, Find;
    var steps := PushSteps(g, proposed, at);
    FirstTouchExists(g, steps, id, e);
    if k :| 0 <= k < |steps| && FirstTouch(g, steps, k, id, e) {
      TouchIsExplained(g, steps, k, id, e);
      PushStepsArePushSteps(g, proposed, at, k);
    }
  }

  /** Sealing leaves settled records as they are. */
  lemma RestoredStaysSettled(w: Watch, id: Uuid, e: Event)
    requires Sound(w.saved) && Settled(w.saved, id, e)
    ensures Settled(Restored(w), id, e)
  {
    hide SealAll;
    SealAllShape(w.saved.settle, w.saved.sched, 0);
    SettledSurvivesOtherRecords(w.saved.settle, Restored(w).settle, id);
  }

  /** Promotion touches a settled event only through a due entry for it. */
  lemma {:induction false} PromotionNeedsADueEntry(g: Gate, slot: nat, at: Moment, id: Uuid, e: Event) returns (i: nat)
    requires Sound(g) && Settled(g, id, e) && slot <= |g.pending|
    requires !Settled(PromoteFrom(g, slot, at).0, id, e)
    ensures slot <= i < |g.pending| && g.pending[i].targetId == id && Due(g.pending[i], at.nowS)
    decreases |g.pending| - slot
  {
    hide Sound, Settled, Promoted;
    i := slot;
    if slot < |g.pending| {
      var next := Promoted(g, slot, at).0;
      TurnIsSound(g, slot, at, id, e);
      PromotedSameLength(g, slot, at);
      if Settled(next, id, e) {
        i := PromotionNeedsADueEntry(next, slot + 1, at, id, e);
      }
    }
  }

  lemma TurnIsSound(g: Gate, slot: nat, at: Moment, id: Uuid, e: Event)
    requires Sound(g) && Settled(g, id, e) && slot < |g.pending|
    ensures Sound(Promoted(g, slot, at).0)
    ensures Settled(Promoted(g, slot, at).0, id, e) || (g.pending[slot].targetId == id && Due(g.pending[slot], at.nowS))
  {
    hide Shape, BaselinesCurrent, Settled, Promoted;
    PromotedKeepsShape(g, slot, at);
    PromotedKeepsBaselines(g, slot, at);
    PromotionIsLicensed(g, slot, at, id, e);
  }

  lemma BootHasReason(hs: seq<Happening>, utc: int, tz: int, id: Uuid, e: Event)
    requires BothSound(Lived(hs))
    ensures Settled(Happens(Lived(hs), Reboot(utc, tz)).gate, id, e) || RecordLost(Lived(hs), id, e) || PromotesAWaiter(hs, id)
  {
    hide Sound, Settled, Lived, Invariant, PromoteFrom, QueuedByPush, ADayOld, AllADayOld;
    var w := Lived(hs);
    if Settled(w.saved, id, e) && !Settled(PromoteFrom(Restored(w), 0, BootMoment(w, utc, tz)).0, id, e) {
      RestoredIsSound(w);
      RestoredStaysSettled(w, id, e);
      var slot := PromotionNeedsADueEntry(Restored(w), 0, BootMoment(w, utc, tz), id, e);
      var j, q := DueEntryHasWaited(hs, slot);
    }
  }

  /** One happening leaves a settled event settled as it is, or has a reason. */
  lemma HappeningHasReason(hs: seq<Happening>, h: Happening, id: Uuid, e: Event)
    requires BothSound(Lived(hs)) && Settled(Lived(hs).gate, id, e) && !h.SpendAttempt?
    ensures Settled(Happens(Lived(hs), h).gate, id, e) || LifeReason(hs, h, id, e)
  {
    hide Sound, Lived, Invariant, PromoteFrom, AfterPush, PushTouches, RecordLost, PromotesAWaiter;
    var w := Lived(hs);
    match h
    case Push(proposed, active, utc, tz) => PushHasReason(w.gate, proposed, MomentOf(w, h), id, e);
    case Reboot(utc, tz) => BootHasReason(hs, utc, tz, id, e);
    case _ =>
  }

  /** After this life the event is settled, and stored, as it was. */
  ghost predicate Kept(hs: seq<Happening>, id: Uuid, e: Event) {
    Settled(Lived(hs).gate, id, e) && Find(Lived(hs).gate.sched, id) == Some(e)
  }

  ghost predicate KeptThroughout(hs: seq<Happening>, m: nat, n: nat, id: Uuid, e: Event)
    requires n <= |hs|
  {
    forall i :: m <= i <= n ==> Kept(hs[..i], id, e)
  }

  /** From `m` up to the happening at `n` the event is kept; that happening ends it, and has a reason. */
  ghost predicate FirstLifeTouch(hs: seq<Happening>, m: nat, n: nat, id: Uuid, e: Event)
    requires m <= n < |hs|
  {
    && KeptThroughout(hs, m, n, id, e)
    && !Settled(Lived(hs[..n + 1]).gate, id, e)
    && LifeReason(hs[..n], hs[n], id, e)
  }

  lemma SettledIsKept(hs: seq<Happening>, id: Uuid, e: Event)
    requires Sound(Lived(hs).gate) && Settled(Lived(hs).gate, id, e)
    ensures Kept(hs, id, e)
  {
    hide Sound, Settled, Lived;
    SettledIsStored(Lived(hs).gate, id, e);
  }

  /** The same calls are at the front of the longer life. */
  lemma LongerLife(hs: seq<Happening>, m: nat, n: nat, id: Uuid, e: Event)
    requires hs != [] && n <= |hs| - 1
    ensures KeptThroughout(hs[..|hs| - 1], m, n, id, e) ==> KeptThroughout(hs, m, n, id, e)
    ensures m <= n < |hs| - 1 && FirstLifeTouch(hs[..|hs| - 1], m, n, id, e) ==> FirstLifeTouch(hs, m, n, id, e)
  {
    hide Kept, Settled, Lived, LifeReason;
    var front := hs[..|hs| - 1];
    forall i | 0 <= i <= n
      ensures front[..i] == hs[..i]
    {
    }
    assert n < |front| ==> front[..n + 1] == hs[..n + 1];
  }

  lemma KeptToTheEnd(hs: seq<Happening>, m: nat, id: Uuid, e: Event)
    requires hs != [] && KeptThroughout(hs, m, |hs| - 1, id, e) && Kept(hs, id, e)
    ensures KeptThroughout(hs, m, |hs|, id, e)
  {
    hide Kept;
    assert hs[..|hs|] == hs;
  }

  lemma TouchedAtTheEnd(hs: seq<Happening>, m: nat, id: Uuid, e: Event)
    requires m < |hs| && KeptThroughout(hs, m, |hs| - 1, id, e) && !Settled(Lived(hs).gate, id, e)
    requires LifeReason(hs[..|hs| - 1], hs[|hs| - 1], id, e)
    ensures FirstLifeTouch(hs, m, |hs| - 1, id, e)
  {
    hide KeptThroughout, Settled, Lived, LifeReason;
    assert hs[..|hs|] == hs;
  }

  /** One more happening: the event stays kept, or this is the first touch. */
  lemma LastHappening(hs: seq<Happening>, m: nat, id: Uuid, e: Event)
    requires m < |hs| && !hs[|hs| - 1].SpendAttempt?
    requires BothSound(Lived(hs[..|hs| - 1])) && BothSound(Lived(hs))
    requires KeptThroughout(hs, m, |hs| - 1, id, e)
    ensures KeptThroughout(hs, m, |hs|, id, e) || FirstLifeTouch(hs, m, |hs| - 1, id, e)
  {
    hide Settled, Lived, Happens, LifeReason, Find, Sound, Invariant, FirstLifeTouch;
    var n := |hs| - 1;
    assert Kept(hs[..n], id, e);
    hide KeptThroughout;
    LivedLast(hs);
    HappeningHasReason(hs[..n], hs[n], id, e);
    if Settled(Lived(hs).gate, id, e) {
      SettledIsKept(hs, id, e);
      KeptToTheEnd(hs, m, id, e);
    } else {
      TouchedAtTheEnd(hs, m, id, e);
    }
  }

  /**
   In every life without a pass, reboots included: an event settled at some moment is settled and stored as
   it was ever after, or the first happening that ended this is a push whose first touch of it has one of
   the reasons, a boot that promoted an entry which had waited a powered-on day, or a boot that restored a
   record from before the event settled.
   */
  lemma {:induction false} SettledEventsSurviveLives(hs: seq<Happening>, m: nat, id: Uuid, e: Event)
    requires m <= |hs| && forall k :: 0 <= k < |hs| ==> !hs[k].SpendAttempt?
    requires Settled(Lived(hs[..m]).gate, id, e)
    ensures KeptThroughout(hs, m, |hs|, id, e) || exists n :: m <= n < |hs| && FirstLifeTouch(hs, m, n, id, e)
    decreases |hs|
  {
    hide Settled, Lived, Kept, FirstLifeTouch, Sound;
    LivesStaySound(hs);
    if m == |hs| {
      assert hs[..m] == hs;
      SettledIsKept(hs, id, e);
    } else {
      var n := |hs| - 1;
      assert hs[..n][..m] == hs[..m];
      LivesStaySound(hs[..n]);
      SettledEventsSurviveLives(hs[..n], m, id, e);
      if k :| m <= k < n && FirstLifeTouch(hs[..n], m, k, id, e) {
        LongerLife(hs, m, k, id, e);
      } else {
        LongerLife(hs, m, n, id, e);
        LastHappening(hs, m, id, e);
      }
    }
  }
}
