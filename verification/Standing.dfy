/**
 How the gate stands towards one event: its stored version, its settle record, and the loosening waiting for
 it. Every decision about an event changes that event's standing as a small table says, and no other's.
 */
module Standing {
  import opened Machine
  import opened Events
  import opened Integrity
  import opened IntegrityInvariants
  import opened Commitment
  import opened PushEffects
  import Classify

  datatype Standing = Standing(stored: Option<Event>, record: Option<Settle>, waiting: Option<Pending>)

  function RecordOf(t: seq<Settle>, id: Uuid): Option<Settle> {
    var i := SettleIndex(t, id);
    if i < |t| then Some(t[i]) else None
  }

  function WaitingIndex(q: seq<Pending>, id: Uuid): (i: nat)
    ensures i <= |q|
    ensures i < |q| ==> q[i].inUse && q[i].targetId == id
    ensures forall k :: 0 <= k < i ==> !(q[k].inUse && q[k].targetId == id)
  {
    if q == [] then 0
    else if q[0].inUse && q[0].targetId == id then 0
    else 1 + WaitingIndex(q[1..], id)
  }

  function WaitingFor(q: seq<Pending>, id: Uuid): Option<Pending> {
    var i := WaitingIndex(q, id);
    if i < |q| then Some(q[i]) else None
  }

  function StandingOf(g: Gate, id: Uuid): Standing {
    Standing(Find(g.sched, id), RecordOf(g.settle, id), WaitingFor(g.pending, id))
  }

  /** A queue that has, or by cancelling what waits for the event gets, a free slot. */
  predicate HasRoom(q: seq<Pending>, id: Uuid) {
    FreePending(CancelFor(q, id)) < |q|
  }

  lemma WaitingIs(q: seq<Pending>, i: nat)
    requires PendingDistinct(q) && i < |q| && q[i].inUse
    ensures WaitingFor(q, q[i].targetId) == Some(q[i])
  {
  }

  /** Two queues that hold the same entry for the event, or none. */
  lemma SameWaiting(q: seq<Pending>, r: seq<Pending>, id: Uuid)
    requires |r| == |q|
    requires forall i :: 0 <= i < |q| ==> ForIt(q[i], id) == ForIt(r[i], id) && (ForIt(q[i], id) ==> r[i] == q[i])
    ensures WaitingFor(r, id) == WaitingFor(q, id)
  {
    var i, j := WaitingIndex(q, id), WaitingIndex(r, id);
    assert i < |q| ==> ForIt(q[i], id) && ForIt(r[i], id);
    assert j < |r| ==> ForIt(r[j], id) && ForIt(q[j], id);
  }

  predicate ForIt(p: Pending, id: Uuid) {
    p.inUse && p.targetId == id
  }

  // ---------------------------------------------------------------------------
  // The tables
  // ---------------------------------------------------------------------------

  lemma CancelElsewhere(q: seq<Pending>, gone: Uuid, id: Uuid)
    ensures WaitingFor(CancelFor(q, gone), id) == if id == gone then None else WaitingFor(q, id)
  {
    if id != gone {
      SameWaiting(q, CancelFor(q, gone), id);
    }
  }

  lemma QuarantineWaits(g: Gate, p: Pending, id: Uuid)
    requires PendingDistinct(g.pending) && p.inUse
    ensures WaitingFor(Quarantine(g, p).0.pending, id)
      == if id != p.targetId then WaitingFor(g.pending, id) else if HasRoom(g.pending, id) then Some(p) else None
  {
    hide WaitingFor, CancelFor;
    var q, free := CancelFor(g.pending, p.targetId), FreePending(CancelFor(g.pending, p.targetId));
    CancelElsewhere(g.pending, p.targetId, id);
    CancelElsewhere(g.pending, p.targetId, p.targetId);
    if free < |q| {
      PlacedWaits(q, free, p, id);
    }
  }

  lemma PlacedWaits(q: seq<Pending>, free: nat, p: Pending, id: Uuid)
    requires free < |q| && !q[free].inUse && p.inUse && WaitingFor(q, p.targetId) == None
    ensures WaitingFor(q[free := p], id) == if id == p.targetId then Some(p) else WaitingFor(q, id)
  {
    var r := q[free := p];
    if id != p.targetId {
      SameWaiting(q, r, id);
    } else {
      var i := WaitingIndex(r, id);
      assert r[free] == p;
      assert forall k :: 0 <= k < |q| && k != free ==> r[k] == q[k] && !ForIt(q[k], id);
    }
  }

  lemma EditElsewhere(t: seq<Settle>, edited: Uuid, nowS: nat, id: Uuid)
    requires SettleDistinct(t) && id != edited
    ensures RecordOf(NoteEdit(t, edited, nowS), id) == RecordOf(t, id)
  {
    var r := NoteEdit(t, edited, nowS);
    NoteEditShape(t, edited, nowS);
    var i, j := SettleIndex(t, id), SettleIndex(r, id);
    assert j < |r| ==> r[j] == t[j];
    if i < |t| {
      assert r[i] == t[i];
      SlotIs(r, i);
    }
  }

  /** An accepted edit leaves the event's record, if there is room for one, open from now on. */
  lemma EditOpens(t: seq<Settle>, id: Uuid, nowS: nat)
    requires SettleDistinct(t)
    ensures var r := RecordOf(NoteEdit(t, id, nowS), id);
      && (r.Some? <==> RecordOf(t, id).Some? || FreeSettle(t) < |t|)
      && (r.Some? ==> r.value.lastEditS == nowS && !r.value.hasBaseline)
  {
    NoteEditShape(t, id, nowS);
    var i, free := SettleIndex(t, id), FreeSettle(t);
    if i < |t| {
      SlotIs(NoteEdit(t, id, nowS), i);
    } else if free < |t| {
      SlotIs(NoteEdit(t, id, nowS), free);
    }
  }

  // ---------------------------------------------------------------------------
  // Decisions about other events
  // ---------------------------------------------------------------------------

  predicate Decides(step: Step) {
    step.Drop? || step.Put?
  }

  lemma DropStandsElsewhere(g: Gate, gone: Uuid, at: Moment, id: Uuid)
    requires Shape(g) && Has(g.sched, gone) && gone != id
    ensures StandingOf(DropEvent(g, gone, at).0, id) == StandingOf(g, id)
  {
    hide BeyondHorizon, NoteEdit, CancelFor, Quarantine, Deleted, RecordOf, WaitingFor, Find, Has;
    var p := Pending(true, PendingDelete, gone, at.nowS + LOOSEN_DELAY_S, EmptyEvent());
    DeleteFinds(g.sched, gone, id);
    EditElsewhere(g.settle, gone, at.nowS, id);
    CancelElsewhere(g.pending, gone, id);
    QuarantineWaits(g, p, id);
    QuarantineTouchesOnlyTheQueue(g, p);
  }

  lemma PutStandsElsewhere(g: Gate, pe: Event, at: Moment, id: Uuid)
    requires Shape(g) && pe.id != id
    ensures StandingOf(PutEvent(g, pe, at).0, id) == StandingOf(g, id)
  {
    hide ChangeOf, MayApplyNow, Fits, NoteEdit, CancelFor, Quarantine, Upserted, RecordOf, WaitingFor, Find;
    var p := Pending(true, PendingUpsert, pe.id, at.nowS + LOOSEN_DELAY_S, pe);
    UpsertFinds(g.sched, pe, id);
    EditElsewhere(g.settle, pe.id, at.nowS, id);
    CancelElsewhere(g.pending, pe.id, id);
    QuarantineWaits(g, p, id);
    QuarantineTouchesOnlyTheQueue(g, p);
  }

  lemma StandsElsewhere(g: Gate, step: Step, id: Uuid)
    requires Shape(g) && Decides(step) && Target(step) != Some(id)
    ensures StandingOf(Next(g, step).0, id) == StandingOf(g, id)
  {
    hide DropEvent, PutEvent, Has, StandingOf;
    match step
    case Drop(gone, at) =>
      if Has(g.sched, gone) {
        DropStandsElsewhere(g, gone, at, id);
      }
    case Put(pe, at) => PutStandsElsewhere(g, pe, at, id);
    case _ =>
  }

  lemma {:induction false} RunStandsElsewhere(g: Gate, steps: seq<Step>, id: Uuid)
    requires Shape(g)
    requires forall i :: 0 <= i < |steps| ==> Decides(steps[i]) && Target(steps[i]) != Some(id)
    ensures StandingOf(Run(g, steps), id) == StandingOf(g, id) && Shape(Run(g, steps))
    decreases |steps|
  {
    hide Shape, Next, StandingOf;
    if steps != [] {
      StandsElsewhere(g, steps[0], id);
      StepKeepsShape(g, steps[0]);
      RunStandsElsewhere(Next(g, steps[0]).0, steps[1..], id);
    }
  }

  // ---------------------------------------------------------------------------
  // The decision about the event itself
  // ---------------------------------------------------------------------------

  /** The settle record allows any replacement, or one at least as binding as the baseline. */
  ghost predicate FreeFor(record: Option<Settle>, pe: Event, tz: int) {
    record == None || !record.value.hasBaseline || Classify.IsInstant(Classify.ClassifyModified(record.value.baseline, pe, tz))
  }

  /** How one stored version, or none, compares with the proposed event. */
  ghost function Comparison(stored: Option<Event>, pe: Event, tz: int): Classify.Change {
    if stored == None then Classify.ClassifyAdded(pe) else Classify.ClassifyModified(stored.value, pe, tz)
  }

  ghost predicate AppliesNow(s: Standing, pe: Event, at: Moment) {
    || Classify.IsInstant(Comparison(s.stored, pe, at.tz))
    || FreeFor(s.record, pe, at.tz)
    || BeyondHorizon(pe, at)
  }

  function LooseningTo(pe: Event, nowS: nat): Pending {
    Pending(true, PendingUpsert, pe.id, nowS + LOOSEN_DELAY_S, pe)
  }

  function DeletionOf(id: Uuid, nowS: nat): Pending {
    Pending(true, PendingDelete, id, nowS + LOOSEN_DELAY_S, EmptyEvent())
  }

  /** What the decision about a proposed event does to it: nothing, apply and cancel, or queue. */
  lemma PutDecides(g: Gate, pe: Event, at: Moment)
    requires Shape(g)
    ensures var s, t := StandingOf(g, pe.id), StandingOf(Next(g, Put(pe, at)).0, pe.id);
      if Comparison(s.stored, pe, at.tz) == Classify.NoChange then t == s
      else if AppliesNow(s, pe, at) then
        if Fits(g.sched, pe.id) then
          && t.stored == Some(pe) && t.waiting == None
          && (t.record.Some? ==> t.record.value.lastEditS == at.nowS && !t.record.value.hasBaseline)
        else t == s
      else
        t == s.(waiting := if HasRoom(g.pending, pe.id) then Some(LooseningTo(pe, at.nowS)) else None)
  {
    hide Classify.ClassifyModified, BeyondHorizon, Fits, NoteEdit, CancelFor, Quarantine, Upserted, WaitingFor, HasRoom, Find;
    SameRules(g, pe, at);
    hide MayApplyNow, AppliesNow, ChangeOf, Comparison, RecordOf;
    UpsertFinds(g.sched, pe, pe.id);
    EditOpens(g.settle, pe.id, at.nowS);
    CancelElsewhere(g.pending, pe.id, pe.id);
    QuarantineWaits(g, LooseningTo(pe, at.nowS), pe.id);
    QuarantineTouchesOnlyTheQueue(g, LooseningTo(pe, at.nowS));
  }

  /** The rules look at no more of the tables than the event's standing. */
  lemma SameRules(g: Gate, pe: Event, at: Moment)
    ensures ChangeOf(g.sched, pe, at.tz) == Comparison(StandingOf(g, pe.id).stored, pe, at.tz)
    ensures MayApplyNow(g, pe, at) <==> AppliesNow(StandingOf(g, pe.id), pe, at)
  {
    hide Classify.ClassifyModified, BeyondHorizon;
  }

  /** What the decision about a missing event does to it: delete and cancel, or queue. */
  lemma DropDecides(g: Gate, id: Uuid, at: Moment)
    requires Shape(g) && Has(g.sched, id)
    ensures var s, t := StandingOf(g, id), StandingOf(Next(g, Drop(id, at)).0, id);
      if BeyondHorizon(s.stored.value, at) then t.stored == None && t.waiting == None
      else t == s.(waiting := if HasRoom(g.pending, id) then Some(DeletionOf(id, at.nowS)) else None)
  {
    hide BeyondHorizon, NoteEdit, CancelFor, Quarantine, Deleted, WaitingFor, HasRoom, RecordOf;
    DeleteFinds(g.sched, id, id);
    CancelElsewhere(g.pending, id, id);
    QuarantineWaits(g, DeletionOf(id, at.nowS), id);
    QuarantineTouchesOnlyTheQueue(g, DeletionOf(id, at.nowS));
  }
}
