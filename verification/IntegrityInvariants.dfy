/**
 What every decision of the gate keeps: distinct ids within capacity in all three tables, and, as long
 as no pass is spent, settled baselines that are exactly the stored events.
 */
module IntegrityInvariants {
  import opened Machine
  import opened Events
  import opened NextStart
  import opened Integrity

  ghost predicate SettleDistinct(t: seq<Settle>) {
    forall i, j :: 0 <= i < j < |t| && t[i].inUse && t[j].inUse ==> t[i].eventId != t[j].eventId
  }

  ghost predicate PendingDistinct(q: seq<Pending>) {
    && (forall i, j :: 0 <= i < j < |q| && q[i].inUse && q[j].inUse ==> q[i].targetId != q[j].targetId)
    && (forall i :: 0 <= i < |q| && q[i].inUse && q[i].kind == PendingUpsert ==> q[i].proposed.id == q[i].targetId)
  }

  /** The shape of the three linked tables. */
  ghost predicate Shape(g: Gate) {
    && |g.sched| <= MAX_EVENTS && DistinctIds(g.sched)
    && |g.settle| == MAX_EVENTS && SettleDistinct(g.settle)
    && |g.pending| == PENDING_QUEUE_MAX && PendingDistinct(g.pending)
    && |g.spends| <= PASS_SLOTS
  }

  ghost predicate IsBaseline(st: Settle) {
    st.inUse && st.hasBaseline
  }

  /** Every settled baseline is the stored event with that id. */
  ghost predicate BaselinesCurrent(s: seq<Event>, t: seq<Settle>) {
    forall i :: 0 <= i < |t| && IsBaseline(t[i]) ==> Find(s, t[i].eventId) == Some(t[i].baseline)
  }

  /** Every stored event has a settle record, unless all records are taken. */
  ghost predicate Sealed(s: seq<Event>, t: seq<Settle>) {
    forall i :: 0 <= i < |s| ==> SettleIndex(t, s[i].id) < |t| || FreeSettle(t) == |t|
  }

  // ---------------------------------------------------------------------------
  // The schedule table
  // ---------------------------------------------------------------------------

  lemma {:induction false} FindIs(s: seq<Event>, i: nat)
    requires i < |s| && DistinctIds(s)
    ensures IndexOf(s, s[i].id) == i && Find(s, s[i].id) == Some(s[i])
  {
  }

  lemma UpsertKeepsIds(s: seq<Event>, e: Event)
    requires DistinctIds(s) && |s| <= MAX_EVENTS
    ensures DistinctIds(Upserted(s, e)) && |Upserted(s, e)| <= MAX_EVENTS
  {
  }

  lemma UpsertFinds(s: seq<Event>, e: Event, id: Uuid)
    requires DistinctIds(s) && |s| <= MAX_EVENTS
    ensures Find(Upserted(s, e), id) == if id == e.id && Fits(s, id) then Some(e) else Find(s, id)
  {
    var r, i := Upserted(s, e), IndexOf(s, e.id);
    UpsertKeepsIds(s, e);
    if id == e.id {
      if Fits(s, id) {
        FindIs(r, i);
      }
    } else if Has(s, id) {
      FindIs(r, IndexOf(s, id));
    } else {
      assert forall k :: 0 <= k < |r| ==> r[k].id != id;
    }
  }

  lemma DeleteKeepsIds(s: seq<Event>, id: Uuid)
    requires DistinctIds(s)
    ensures DistinctIds(Deleted(s, id)) && |Deleted(s, id)| <= |s|
  {
  }

  lemma DeleteFinds(s: seq<Event>, gone: Uuid, id: Uuid)
    requires DistinctIds(s)
    ensures Find(Deleted(s, gone), id) == if id == gone then None else Find(s, id)
  {
    var r, i := Deleted(s, gone), IndexOf(s, gone);
    DeleteKeepsIds(s, gone);
    if id != gone && Has(s, id) {
      var k := IndexOf(s, id);
      FindIs(r, if k < i then k else k - 1);
    } else {
      forall k | 0 <= k < |r|
        ensures r[k].id != id
      {
        assert r[k] == s[if k < i then k else k + 1];
      }
    }
  }

  // ---------------------------------------------------------------------------
  // The settle table
  // ---------------------------------------------------------------------------

  lemma SlotIs(t: seq<Settle>, i: nat)
    requires SettleDistinct(t) && i < |t| && t[i].inUse
    ensures SettleIndex(t, t[i].eventId) == i
  {
  }

  /** A record changes at one place, keeping its id or taking an id that had no record. */
  ghost predicate OneSlotChanged(t: seq<Settle>, r: seq<Settle>, id: Uuid) {
    && |r| == |t|
    && forall i :: 0 <= i < |t| ==> r[i] == t[i] || (r[i].inUse && r[i].eventId == id && (!t[i].inUse || t[i].eventId == id))
  }

  lemma NoteEditShape(t: seq<Settle>, id: Uuid, nowS: nat)
    requires SettleDistinct(t)
    ensures SettleDistinct(NoteEdit(t, id, nowS))
    ensures OneSlotChanged(t, NoteEdit(t, id, nowS), id)
    ensures forall i :: 0 <= i < |t| && IsBaseline(NoteEdit(t, id, nowS)[i]) ==> t[i] == NoteEdit(t, id, nowS)[i] && t[i].eventId != id
  {
    var i := SettleIndex(t, id);
    if i < |t| {
      SlotIs(t, i);
    }
  }

  lemma SealOneShape(t: seq<Settle>, e: Event, nowS: nat)
    requires SettleDistinct(t)
    ensures SettleDistinct(SealOne(t, e, nowS))
    ensures SettleIndex(SealOne(t, e, nowS), e.id) < |t| || FreeSettle(SealOne(t, e, nowS)) == |t|
    ensures OnlyAdds([e], t, SealOne(t, e, nowS))
  {
    var r, free := SealOne(t, e, nowS), FreeSettle(t);
    if SettleIndex(t, e.id) == |t| && free < |t| {
      SlotIs(r, free);
    }
  }

  /** What sealing may put in a record: the stored state of some event of the list. */
  ghost predicate SealedFrom(s: seq<Event>, st: Settle) {
    IsBaseline(st) && st.baseline in s && st.baseline.id == st.eventId
  }

  ghost predicate OnlyAdds(s: seq<Event>, t: seq<Settle>, r: seq<Settle>) {
    |r| == |t| && forall i :: 0 <= i < |t| ==> r[i] == t[i] || (!t[i].inUse && SealedFrom(s, r[i]))
  }

  lemma OnlyAddsComposes(s: seq<Event>, t: seq<Settle>, t1: seq<Settle>, r: seq<Settle>)
    requires s != [] && OnlyAdds([s[0]], t, t1) && OnlyAdds(s[1..], t1, r)
    ensures OnlyAdds(s, t, r)
  {
    forall i | 0 <= i < |t|
      ensures r[i] == t[i] || (!t[i].inUse && SealedFrom(s, r[i]))
    {
      assert t1[i] == t[i] || t1[i].inUse;
    }
  }

  /** Sealing only ever adds records, each settled in its event's stored state, and leaves no event without one. */
  lemma {:induction false} SealAllShape(t: seq<Settle>, s: seq<Event>, nowS: nat)
    requires SettleDistinct(t)
    ensures SettleDistinct(SealAll(t, s, nowS))
    ensures Sealed(s, SealAll(t, s, nowS))
    ensures OnlyAdds(s, t, SealAll(t, s, nowS))
    decreases |s|
  {
    hide SealOne, SealedFrom;
    if s != [] {
      var t1 := SealOne(t, s[0], nowS);
      SealOneShape(t, s[0], nowS);
      SealAllShape(t1, s[1..], nowS);
      OnlyAddsComposes(s, t, t1, SealAll(t, s, nowS));
      SealedCons(s, t1, SealAll(t, s, nowS));
    }
  }

  lemma SealedCons(s: seq<Event>, t: seq<Settle>, r: seq<Settle>)
    requires s != [] && OnlyAdds(s[1..], t, r) && Sealed(s[1..], r)
    requires SettleIndex(t, s[0].id) < |t| || FreeSettle(t) == |t|
    ensures Sealed(s, r)
  {
    StaysSealed(t, r, s[0].id);
    forall i | 0 <= i < |s|
      ensures SettleIndex(r, s[i].id) < |r| || FreeSettle(r) == |r|
    {
      assert i > 0 ==> s[i] == s[1..][i - 1];
    }
  }

  /** A table that only gained records finds what it found, and stays full if it was full. */
  lemma StaysSealed(t: seq<Settle>, r: seq<Settle>, id: Uuid)
    requires |r| == |t| && forall i :: 0 <= i < |t| && t[i].inUse ==> r[i].inUse && r[i].eventId == t[i].eventId
    requires SettleIndex(t, id) < |t| || FreeSettle(t) == |t|
    ensures SettleIndex(r, id) < |r| || FreeSettle(r) == |r|
  {
    var i := SettleIndex(t, id);
    if i < |t| {
      assert r[i].inUse && r[i].eventId == id;
    }
  }

  // ---------------------------------------------------------------------------
  // The queue
  // ---------------------------------------------------------------------------

  lemma CancelShape(q: seq<Pending>, id: Uuid)
    requires PendingDistinct(q)
    ensures PendingDistinct(CancelFor(q, id))
    ensures forall i :: 0 <= i < |q| && CancelFor(q, id)[i].inUse ==> CancelFor(q, id)[i] == q[i] && q[i].targetId != id
  {
  }

  lemma QuarantineShape(g: Gate, p: Pending)
    requires PendingDistinct(g.pending)
    requires p.kind == PendingUpsert ==> p.proposed.id == p.targetId
    ensures PendingDistinct(Quarantine(g, p).0.pending)
  {
    CancelShape(g.pending, p.targetId);
  }

  // ---------------------------------------------------------------------------
  // Every step keeps the shape
  // ---------------------------------------------------------------------------

  lemma DropKeepsShape(g: Gate, id: Uuid, at: Moment)
    requires Shape(g) && Has(g.sched, id)
    ensures Shape(DropEvent(g, id, at).0)
  {
    hide SecondsUntilNextStart;
    DeleteKeepsIds(g.sched, id);
    NoteEditShape(g.settle, id, at.nowS);
    CancelShape(g.pending, id);
    QuarantineShape(g, Pending(true, PendingDelete, id, at.nowS + LOOSEN_DELAY_S, EmptyEvent()));
  }

  lemma PutKeepsShape(g: Gate, pe: Event, at: Moment)
    requires Shape(g)
    ensures Shape(PutEvent(g, pe, at).0)
  {
    hide ChangeOf, MayApplyNow;
    UpsertKeepsIds(g.sched, pe);
    NoteEditShape(g.settle, pe.id, at.nowS);
    CancelShape(g.pending, pe.id);
    QuarantineShape(g, Pending(true, PendingUpsert, pe.id, at.nowS + LOOSEN_DELAY_S, pe));
  }

  lemma PromotedKeepsShape(g: Gate, slot: nat, at: Moment)
    requires Shape(g) && slot < |g.pending|
    ensures Shape(Promoted(g, slot, at).0)
  {
    hide SecondsUntilNextStart;
    var p := g.pending[slot];
    UpsertKeepsIds(g.sched, p.proposed);
    DeleteKeepsIds(g.sched, p.targetId);
    NoteEditShape(g.settle, p.targetId, at.nowS);
    assert PendingDistinct(g.pending[slot := p.(inUse := false)]);
  }

  /** Schedule ids, settle ids and queued target ids stay distinct and within capacity, whatever the step. */
  lemma StepKeepsShape(g: Gate, step: Step)
    requires Shape(g)
    ensures Shape(Next(g, step).0)
  {
    hide DropEvent, PutEvent, Promoted;
    match step
    case Seal(nowS) => SealAllShape(g.settle, g.sched, nowS);
    case SettleTick(nowS) =>
    case Drop(id, at) =>
      if Has(g.sched, id) {
        DropKeepsShape(g, id, at);
      }
    case Put(pe, at) => PutKeepsShape(g, pe, at);
    case PromoteSlot(slot, at) =>
      if slot < |g.pending| {
        PromotedKeepsShape(g, slot, at);
      }
    case ShrinkWindow(minutes) =>
  }

  lemma {:induction false} RunKeepsShape(g: Gate, steps: seq<Step>)
    requires Shape(g)
    ensures Shape(Run(g, steps))
    decreases |steps|
  {
    hide Next, Shape;
    if steps != [] {
      StepKeepsShape(g, steps[0]);
      RunKeepsShape(Next(g, steps[0]).0, steps[1..]);
    }
  }

  /** A pass keeps the shape too, though not the baselines. */
  lemma SpendKeepsShape(g: Gate, id: Uuid, yyyymmdd: U32, nowS: nat)
    requires Shape(g)
    ensures Shape(SpendPass(g, id, yyyymmdd, nowS).gate)
  {
    hide PassNegate;
    var target := Find(g.sched, id);
    if target.Some? {
      UpsertKeepsIds(g.sched, PassNegate(target.value, yyyymmdd));
    }
  }
}
