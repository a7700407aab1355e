/**
 The self-binding guarantee: in any run of pushes and promotions, the first thing that touches a settled
 event is a change that binds at least as hard, a change or deletion far from its next start, or a
 loosening that has waited out its 24 hours in the queue.
 */
module Commitment {
  import opened Machine
  import opened Events
  import opened NextStart
  import opened Classify
  import opened Integrity
  import opened IntegrityInvariants

  // ---------------------------------------------------------------------------
  // Baselines stay current
  // ---------------------------------------------------------------------------

  lemma SealKeepsBaselines(g: Gate, nowS: nat)
    requires Shape(g) && BaselinesCurrent(g.sched, g.settle)
    ensures BaselinesCurrent(g.sched, SealAll(g.settle, g.sched, nowS))
  {
    hide SealAll;
    SealAllShape(g.settle, g.sched, nowS);
    var r := SealAll(g.settle, g.sched, nowS);
    forall i | 0 <= i < |r| && IsBaseline(r[i])
      ensures Find(g.sched, r[i].eventId) == Some(r[i].baseline)
    {
      if r[i] != g.settle[i] {
        var k :| 0 <= k < |g.sched| && g.sched[k] == r[i].baseline;
        FindIs(g.sched, k);
      }
    }
  }

  /** A change to one stored event that also reopens its record. */
  lemma EditKeepsBaselines(s: seq<Event>, next: seq<Event>, t: seq<Settle>, id: Uuid, nowS: nat)
    requires SettleDistinct(t) && BaselinesCurrent(s, t)
    requires forall other :: other != id ==> Find(next, other) == Find(s, other)
    ensures BaselinesCurrent(next, NoteEdit(t, id, nowS))
  {
    NoteEditShape(t, id, nowS);
  }

  lemma PutKeepsBaselines(g: Gate, pe: Event, at: Moment)
    requires Shape(g) && BaselinesCurrent(g.sched, g.settle)
    ensures BaselinesCurrent(PutEvent(g, pe, at).0.sched, PutEvent(g, pe, at).0.settle)
  {
    hide ChangeOf, MayApplyNow, Upserted, NoteEdit, Find;
    forall other | other != pe.id
      ensures Find(Upserted(g.sched, pe), other) == Find(g.sched, other)
    {
      UpsertFinds(g.sched, pe, other);
    }
    EditKeepsBaselines(g.sched, Upserted(g.sched, pe), g.settle, pe.id, at.nowS);
  }

  lemma DeleteKeepsBaselines(g: Gate, id: Uuid, nowS: nat)
    requires Shape(g) && BaselinesCurrent(g.sched, g.settle)
    ensures BaselinesCurrent(Deleted(g.sched, id), NoteEdit(g.settle, id, nowS))
  {
    hide Deleted, NoteEdit, Find;
    forall other | other != id
      ensures Find(Deleted(g.sched, id), other) == Find(g.sched, other)
    {
      DeleteFinds(g.sched, id, other);
    }
    EditKeepsBaselines(g.sched, Deleted(g.sched, id), g.settle, id, nowS);
  }

  lemma PromotedKeepsBaselines(g: Gate, slot: nat, at: Moment)
    requires Shape(g) && BaselinesCurrent(g.sched, g.settle) && slot < |g.pending|
    ensures BaselinesCurrent(Promoted(g, slot, at).0.sched, Promoted(g, slot, at).0.settle)
  {
    hide Deleted, Upserted, NoteEdit, Find, SecondsUntilNextStart;
    var p := g.pending[slot];
    DeleteKeepsBaselines(g, p.targetId, at.nowS);
    EditKeepsBaselines(g.sched, g.sched, g.settle, p.targetId, at.nowS);
    if p.inUse && p.kind == PendingUpsert {
      forall other | other != p.targetId
        ensures Find(Upserted(g.sched, p.proposed), other) == Find(g.sched, other)
      {
        UpsertFinds(g.sched, p.proposed, other);
      }
      EditKeepsBaselines(g.sched, Upserted(g.sched, p.proposed), g.settle, p.targetId, at.nowS);
    }
  }

  /** Every settled baseline is the stored event with that id, after any step. */
  lemma StepKeepsBaselines(g: Gate, step: Step)
    requires Shape(g) && BaselinesCurrent(g.sched, g.settle)
    ensures BaselinesCurrent(Next(g, step).0.sched, Next(g, step).0.settle)
  {
    hide PutEvent, Promoted, SealAll, Deleted, NoteEdit, SecondsUntilNextStart, Quarantine;
    match step
    case Seal(nowS) => SealKeepsBaselines(g, nowS);
    case SettleTick(nowS) =>
    case Drop(id, at) =>
      DeleteKeepsBaselines(g, id, at.nowS);
      QuarantineTouchesOnlyTheQueue(g, Pending(true, PendingDelete, id, at.nowS + LOOSEN_DELAY_S, EmptyEvent()));
    case Put(pe, at) => PutKeepsBaselines(g, pe, at);
    case PromoteSlot(slot, at) =>
      if slot < |g.pending| {
        PromotedKeepsBaselines(g, slot, at);
      }
    case ShrinkWindow(minutes) =>
  }

  lemma QuarantineTouchesOnlyTheQueue(g: Gate, p: Pending)
    ensures Quarantine(g, p).0 == g.(pending := Quarantine(g, p).0.pending)
    ensures Quarantine(g, p).1 == Queued || Quarantine(g, p).1 == LostQueueFull
  {
  }

  // ---------------------------------------------------------------------------
  // A settled event is let go only with a reason
  // ---------------------------------------------------------------------------

  ghost predicate Sound(g: Gate) {
    Shape(g) && BaselinesCurrent(g.sched, g.settle)
  }

  /** The event is settled, and its baseline is `e`. */
  ghost predicate Settled(g: Gate, id: Uuid, e: Event) {
    var i := SettleIndex(g.settle, id);
    i < |g.settle| && g.settle[i].hasBaseline && g.settle[i].baseline == e
  }

  /** The reasons for which a step may touch the settled event `e`. */
  ghost predicate Licensed(g: Gate, step: Step, id: Uuid, e: Event) {
    match step
    case Put(pe, at) => pe.id == id && (IsInstant(ClassifyModified(e, pe, at.tz)) || BeyondHorizon(pe, at))
    case Drop(gone, at) => gone == id && BeyondHorizon(e, at)
    case PromoteSlot(slot, at) => slot < |g.pending| && g.pending[slot].targetId == id && Due(g.pending[slot], at.nowS)
    case _ => false
  }

  lemma SettledIsStored(g: Gate, id: Uuid, e: Event)
    requires Sound(g) && Settled(g, id, e)
    ensures Find(g.sched, id) == Some(e)
  {
  }

  lemma SettledSurvivesOtherRecords(t: seq<Settle>, r: seq<Settle>, id: Uuid)
    requires SettleDistinct(r) && |r| == |t|
    requires SettleIndex(t, id) < |t| && r[SettleIndex(t, id)] == t[SettleIndex(t, id)]
    ensures SettleIndex(r, id) == SettleIndex(t, id)
  {
    SlotIs(r, SettleIndex(t, id));
  }

  lemma NoteEditElsewhere(g: Gate, next: Gate, edited: Uuid, nowS: nat, id: Uuid, e: Event)
    requires Sound(g) && Settled(g, id, e) && edited != id
    requires next.settle == NoteEdit(g.settle, edited, nowS)
    ensures Settled(next, id, e)
  {
    NoteEditShape(g.settle, edited, nowS);
    SettledSurvivesOtherRecords(g.settle, next.settle, id);
  }

  lemma DropIsLicensed(g: Gate, gone: Uuid, at: Moment, id: Uuid, e: Event)
    requires Sound(g) && Settled(g, id, e) && Has(g.sched, gone)
    ensures Settled(DropEvent(g, gone, at).0, id, e) || (gone == id && BeyondHorizon(e, at))
  {
    hide NoteEdit, Deleted, Quarantine, BeyondHorizon, CancelFor, Find;
    SettledIsStored(g, id, e);
    QuarantineTouchesOnlyTheQueue(g, Pending(true, PendingDelete, gone, at.nowS + LOOSEN_DELAY_S, EmptyEvent()));
    if gone != id && DropEvent(g, gone, at).1 == Applied {
      NoteEditElsewhere(g, DropEvent(g, gone, at).0, gone, at.nowS, id, e);
    }
  }

  lemma PutIsLicensed(g: Gate, pe: Event, at: Moment, id: Uuid, e: Event)
    requires Sound(g) && Settled(g, id, e)
    ensures Settled(PutEvent(g, pe, at).0, id, e)
         || (pe.id == id && (IsInstant(ClassifyModified(e, pe, at.tz)) || BeyondHorizon(pe, at)))
  {
    hide NoteEdit, Upserted, Quarantine, BeyondHorizon, CancelFor, ClassifyModified, Find;
    SettledIsStored(g, id, e);
    QuarantineTouchesOnlyTheQueue(g, Pending(true, PendingUpsert, pe.id, at.nowS + LOOSEN_DELAY_S, pe));
    if pe.id != id && PutEvent(g, pe, at).1 == Applied {
      NoteEditElsewhere(g, PutEvent(g, pe, at).0, pe.id, at.nowS, id, e);
    }
  }

  lemma PromotionIsLicensed(g: Gate, slot: nat, at: Moment, id: Uuid, e: Event)
    requires Sound(g) && Settled(g, id, e) && slot < |g.pending|
    ensures Settled(Promoted(g, slot, at).0, id, e) || (g.pending[slot].targetId == id && Due(g.pending[slot], at.nowS))
  {
    hide NoteEdit, Upserted, Deleted, Expired;
    var p := g.pending[slot];
    if Due(p, at.nowS) && !Expired(p, at) && p.targetId != id {
      NoteEditElsewhere(g, Promoted(g, slot, at).0, p.targetId, at.nowS, id, e);
    }
  }

  /** One step leaves a settled event settled as it is, or is licensed. */
  lemma StepIsLicensed(g: Gate, step: Step, id: Uuid, e: Event)
    requires Sound(g) && Settled(g, id, e)
    ensures Settled(Next(g, step).0, id, e) || Licensed(g, step, id, e)
  {
    hide SealAll, DropEvent, PutEvent, Promoted, BeyondHorizon, ClassifyModified;
    match step
    case Seal(nowS) =>
      SealAllShape(g.settle, g.sched, nowS);
      SettledSurvivesOtherRecords(g.settle, SealAll(g.settle, g.sched, nowS), id);
    case SettleTick(nowS) =>
      SettledSurvivesOtherRecords(g.settle, SettleAll(g.settle, g.sched, nowS, g.settleWindowMin), id);
    case Drop(gone, at) =>
      if Has(g.sched, gone) {
        DropIsLicensed(g, gone, at, id, e);
      }
    case Put(pe, at) => PutIsLicensed(g, pe, at, id, e);
    case PromoteSlot(slot, at) =>
      if slot < |g.pending| {
        PromotionIsLicensed(g, slot, at, id, e);
      }
    case ShrinkWindow(minutes) =>
  }

  // ---------------------------------------------------------------------------
  // Runs
  // ---------------------------------------------------------------------------

  lemma StepKeepsSound(g: Gate, step: Step)
    requires Sound(g)
    ensures Sound(Next(g, step).0)
  {
    hide Shape, BaselinesCurrent, Next;
    StepKeepsShape(g, step);
    StepKeepsBaselines(g, step);
  }

  lemma {:induction false} RunKeepsSound(g: Gate, steps: seq<Step>)
    requires Sound(g)
    ensures Sound(Run(g, steps))
    decreases |steps|
  {
    hide Sound, Next;
    if steps != [] {
      StepKeepsSound(g, steps[0]);
      RunKeepsSound(Next(g, steps[0]).0, steps[1..]);
    }
  }

  /** Step `k` is the first that touches the settled event: settled and stored up to it, not settled so after it. */
  ghost predicate FirstTouch(g: Gate, steps: seq<Step>, k: nat, id: Uuid, e: Event)
    requires k < |steps|
  {
    && (forall j :: 0 <= j <= k ==> Settled(Run(g, steps[..j]), id, e) && Find(Run(g, steps[..j]).sched, id) == Some(e))
    && !Settled(Run(g, steps[..k + 1]), id, e)
  }

  lemma RunTail(g: Gate, steps: seq<Step>, j: nat)
    requires 0 < j <= |steps|
    ensures Run(g, steps[..j]) == Run(Next(g, steps[0]).0, steps[1..][..j - 1])
  {
    hide Next;
    assert steps[..j][1..] == steps[1..][..j - 1];
  }

  /** In any run, a settled event either stays settled exactly as it is, or there is a first step that touches it. */
  lemma {:induction false} FirstTouchExists(g: Gate, steps: seq<Step>, id: Uuid, e: Event)
    requires Sound(g) && Settled(g, id, e)
    ensures (Settled(Run(g, steps), id, e) && Find(Run(g, steps).sched, id) == Some(e))
      || exists k :: 0 <= k < |steps| && FirstTouch(g, steps, k, id, e)
    decreases |steps|
  {
    hide Sound, Settled, Next, Find;
    SettledIsStored(g, id, e);
    if steps != [] {
      var next := Next(g, steps[0]).0;
      assert steps[..0] == [];
      RunTail(g, steps, 1);
      if !Settled(next, id, e) {
        assert FirstTouch(g, steps, 0, id, e);
      } else {
        StepKeepsSound(g, steps[0]);
        FirstTouchExists(next, steps[1..], id, e);
        if k :| 0 <= k < |steps[1..]| && FirstTouch(next, steps[1..], k, id, e) {
          forall j | 0 <= j <= k + 1
            ensures Settled(Run(g, steps[..j]), id, e) && Find(Run(g, steps[..j]).sched, id) == Some(e)
          {
            if j > 0 {
              RunTail(g, steps, j);
            }
          }
          RunTail(g, steps, k + 2);
          assert FirstTouch(g, steps, k + 1, id, e);
        }
      }
    }
  }

  /** The first touch has a licence. */
  lemma FirstTouchIsLicensed(g: Gate, steps: seq<Step>, k: nat, id: Uuid, e: Event)
    requires Sound(g) && k < |steps| && FirstTouch(g, steps, k, id, e)
    ensures Licensed(Run(g, steps[..k]), steps[k], id, e)
  {
    hide Sound, Settled, Licensed, Next, Find;
    RunKeepsSound(g, steps[..k]);
    assert Settled(Run(g, steps[..k]), id, e);
    StepIsLicensed(Run(g, steps[..k]), steps[k], id, e);
    assert steps[..k + 1][..k] == steps[..k];
    RunLast(g, steps[..k + 1]);
  }

  // ---------------------------------------------------------------------------
  // Where queued entries come from
  // ---------------------------------------------------------------------------

  /** The step, decided in state `g`, put this entry in the queue. */
  ghost predicate QueuedBy(g: Gate, step: Step, p: Pending) {
    && Next(g, step).1 == Queued
    && match step
       case Put(pe, at) => p == Pending(true, PendingUpsert, pe.id, at.nowS + LOOSEN_DELAY_S, pe)
       case Drop(id, at) => p == Pending(true, PendingDelete, id, at.nowS + LOOSEN_DELAY_S, EmptyEvent())
       case _ => false
  }

  lemma QuarantineQueues(g: Gate, p: Pending, slot: nat)
    requires p.inUse && slot < |g.pending|
    ensures var (h, o) := Quarantine(g, p); var q := h.pending;
      |q| == |g.pending| && (q[slot].inUse ==> q[slot] == g.pending[slot] || (q[slot] == p && o == Queued))
  {
  }

  /** An entry in the queue after a step was there before it, or the step queued it. */
  lemma StepQueues(g: Gate, step: Step, slot: nat)
    requires slot < |g.pending|
    ensures |Next(g, step).0.pending| == |g.pending|
    ensures var p := Next(g, step).0.pending[slot]; p.inUse ==> p == g.pending[slot] || QueuedBy(g, step, p)
  {
    hide SealAll, NoteEdit, Deleted, Upserted, BeyondHorizon, Expired, ChangeOf, MayApplyNow, EmptyEvent, Quarantine, Has;
    match step
    case Drop(id, at) =>
      QuarantineQueues(g, Pending(true, PendingDelete, id, at.nowS + LOOSEN_DELAY_S, EmptyEvent()), slot);
    case Put(pe, at) =>
      QuarantineQueues(g, Pending(true, PendingUpsert, pe.id, at.nowS + LOOSEN_DELAY_S, pe), slot);
    case _ =>
  }

  lemma {:induction false} RunOfConcat(g: Gate, a: seq<Step>, b: seq<Step>)
    ensures Run(g, a + b) == Run(Run(g, a), b)
    decreases |a|
  {
    hide Next;
    if a == [] {
      assert a + b == b;
    } else {
      assert (a + b)[1..] == a[1..] + b;
      RunOfConcat(Next(g, a[0]).0, a[1..], b);
    }
  }

  lemma RunLast(g: Gate, steps: seq<Step>)
    requires steps != []
    ensures Run(g, steps) == Next(Run(g, steps[..|steps| - 1]), steps[|steps| - 1]).0
  {
    hide Next;
    var front, last := steps[..|steps| - 1], steps[|steps| - 1];
    assert steps == front + [last];
    RunOfConcat(g, front, [last]);
    assert Run(Run(g, front), [last]) == Run(Next(Run(g, front), last).0, []);
  }

  /** Step `j` of the run put this entry in the queue. */
  ghost predicate QueuedAt(g: Gate, steps: seq<Step>, j: nat, p: Pending)
    requires j < |steps|
  {
    QueuedBy(Run(g, steps[..j]), steps[j], p)
  }

  /** Every entry in the queue was there at the start, in the same slot, or was queued by a step of the run. */
  lemma {:induction false} EntriesWereQueued(g: Gate, steps: seq<Step>, slot: nat)
    requires slot < |g.pending|
    ensures |Run(g, steps).pending| == |g.pending|
    ensures var p := Run(g, steps).pending[slot];
      p.inUse ==> p == g.pending[slot] || exists j :: 0 <= j < |steps| && QueuedAt(g, steps, j, p)
    decreases |steps|
  {
    hide Next, QueuedBy;
    if steps != [] {
      var n := |steps| - 1;
      var front, last := steps[..n], steps[n];
      EntriesWereQueued(g, front, slot);
      StepQueues(Run(g, front), last, slot);
      RunLast(g, steps);
      var p := Run(g, steps).pending[slot];
      if p.inUse && p != g.pending[slot] {
        if p == Run(g, front).pending[slot] {
          var j :| 0 <= j < n && QueuedAt(g, front, j, p);
          assert front[..j] == steps[..j];
          assert QueuedAt(g, steps, j, p);
        } else {
          assert QueuedAt(g, steps, n, p);
        }
      }
    }
  }

  // ---------------------------------------------------------------------------
  // The guarantee
  // ---------------------------------------------------------------------------

  /** When the step was decided. */
  function DecidedAt(step: Step): nat {
    match step
    case Seal(nowS) => nowS
    case SettleTick(nowS) => nowS
    case Drop(_, at) => at.nowS
    case Put(_, at) => at.nowS
    case PromoteSlot(_, at) => at.nowS
    case ShrinkWindow(_) => 0
  }

  /**
   Step `k` promotes an entry for this event, and that very entry was in its slot at the start, or was
   queued by an earlier step decided at least 24 hours of elapsed time before.
   */
  ghost predicate WaitedItOut(g: Gate, steps: seq<Step>, k: nat, id: Uuid)
    requires k < |steps| && steps[k].PromoteSlot?
  {
    var q, slot := Run(g, steps[..k]).pending, steps[k].slot;
    && slot < |q| == |g.pending| && Due(q[slot], steps[k].at.nowS) && q[slot].targetId == id
    && (q[slot] == g.pending[slot] || exists j :: 0 <= j < k && QueuedADayBefore(g, steps, j, q[slot], steps[k].at.nowS))
  }

  ghost predicate QueuedADayBefore(g: Gate, steps: seq<Step>, j: nat, p: Pending, nowS: nat)
    requires j < |steps|
  {
    QueuedAt(g, steps, j, p) && nowS >= DecidedAt(steps[j]) + LOOSEN_DELAY_S
  }

  /** The reasons the first touch may have. */
  ghost predicate Explained(g: Gate, steps: seq<Step>, k: nat, id: Uuid, e: Event)
    requires k < |steps|
  {
    match steps[k]
    case Put(pe, at) => pe.id == id && (BindsAtLeast(e, pe, at.tz) || BeyondHorizon(pe, at))
    case Drop(gone, at) => gone == id && BeyondHorizon(e, at)
    case PromoteSlot(slot, at) => WaitedItOut(g, steps, k, id)
    case _ => false
  }

  /**
   In any run of pushes and promotions: a settled event is still stored exactly as it was, or the first
   step that touched it is a replacement that binds at least as hard at every date and minute, a
   replacement or deletion of an inactive event whose next start is over 24 hours off, or the promotion
   of a loosening that was in the queue at the start or was queued at least 86400 elapsed seconds earlier.
   */
  lemma SettledEventsAreKept(g: Gate, steps: seq<Step>, id: Uuid, e: Event)
    requires Sound(g) && Settled(g, id, e)
    ensures Find(Run(g, steps).sched, id) == Some(e)
      || exists k :: 0 <= k < |steps| && FirstTouch(g, steps, k, id, e) && Explained(g, steps, k, id, e)
  {
    hide Sound, Settled, Next, Find, Explained, FirstTouch;
    FirstTouchExists(g, steps, id, e);
    if k :| 0 <= k < |steps| && FirstTouch(g, steps, k, id, e) {
      TouchIsExplained(g, steps, k, id, e);
    }
  }

  lemma TouchIsExplained(g: Gate, steps: seq<Step>, k: nat, id: Uuid, e: Event)
    requires Sound(g) && k < |steps| && FirstTouch(g, steps, k, id, e)
    ensures Explained(g, steps, k, id, e)
  {
    hide Sound, Settled, Run, Find, FirstTouch, ClassifyModified, BindsAtLeast, WaitedItOut, BeyondHorizon;
    FirstTouchIsLicensed(g, steps, k, id, e);
    var step := steps[k];
    if step.Put? && IsInstant(ClassifyModified(e, step.event, step.at.tz)) {
      InstantBindsAtLeast(e, step.event, step.at.tz);
    }
    if step.PromoteSlot? {
      DueEntryWaited(g, steps, k, id);
    }
  }

  lemma DueEntryWaited(g: Gate, steps: seq<Step>, k: nat, id: Uuid)
    requires k < |steps| && steps[k].PromoteSlot?
    requires var q := Run(g, steps[..k]).pending; var slot := steps[k].slot;
      slot < |q| && q[slot].targetId == id && Due(q[slot], steps[k].at.nowS)
    ensures WaitedItOut(g, steps, k, id)
  {
    hide Next, Run;
    var slot := steps[k].slot;
    RunKeepsQueueLength(g, steps[..k]);
    EntriesWereQueued(g, steps[..k], slot);
    var p := Run(g, steps[..k]).pending[slot];
    if p != g.pending[slot] {
      var j :| 0 <= j < k && QueuedAt(g, steps[..k], j, p);
      assert steps[..k][..j] == steps[..j];
      assert QueuedADayBefore(g, steps, j, p, steps[k].at.nowS);
    }
  }

  lemma {:induction false} RunKeepsQueueLength(g: Gate, steps: seq<Step>)
    ensures |Run(g, steps).pending| == |g.pending|
    decreases |steps|
  {
    hide Next;
    if steps != [] {
      StepKeepsQueueLength(g, steps[0]);
      RunKeepsQueueLength(Next(g, steps[0]).0, steps[1..]);
    }
  }

  lemma StepKeepsQueueLength(g: Gate, step: Step)
    ensures |Next(g, step).0.pending| == |g.pending|
  {
    hide SealAll, NoteEdit, Deleted, Upserted, BeyondHorizon, Expired, ChangeOf, MayApplyNow;
  }

  /**
   Why the guarantee is about the first touch: an accepted change drops the baseline, so until the event
   settles again every further replacement of it is a free edit.
   */
  lemma AcceptedEditReopens(g: Gate, pe: Event, at: Moment, later: Event, tz: int)
    requires Shape(g) && later.id == pe.id && PutEvent(g, pe, at).1 == Applied
    ensures WithinFreeEdit(PutEvent(g, pe, at).0.settle, later, tz)
  {
    hide ChangeOf, MayApplyNow, Upserted, ClassifyModified;
    NoteEditShape(g.settle, pe.id, at.nowS);
    var i, free := SettleIndex(g.settle, pe.id), FreeSettle(g.settle);
    if i < |g.settle| {
      SlotIs(NoteEdit(g.settle, pe.id, at.nowS), i);
    } else if free < |g.settle| {
      SlotIs(NoteEdit(g.settle, pe.id, at.nowS), free);
    }
  }
}
