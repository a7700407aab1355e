/**
 What a push reports: the changes it counts as applied are those the schedule shows afterwards, and its verdict
 is "accepted" exactly when nothing was held back.
 */
module PushCounts {
  import opened Machine
  import opened Events
  import opened Classify
  import opened Integrity
  import opened IntegrityInvariants
  import opened Commitment
  import opened PushEffects
  import opened PushActs

  /** The proposed event was a change, and is what is stored now. */
  ghost predicate Landed(s: seq<Event>, now: seq<Event>, pe: Event, tz: int) {
    ChangeOf(s, pe, tz) != NoChange && Find(now, pe.id) == Some(pe)
  }

  ghost function HowManyLanded(s: seq<Event>, now: seq<Event>, ps: seq<Event>, tz: int): nat {
    if ps == [] then 0 else (if Landed(s, now, ps[0], tz) then 1 else 0) + HowManyLanded(s, now, ps[1..], tz)
  }

  function HowManyGone(now: seq<Event>, ids: seq<Uuid>): nat {
    if ids == [] then 0 else (if Has(now, ids[0]) then 0 else 1) + HowManyGone(now, ids[1..])
  }

  // ---------------------------------------------------------------------------
  // One decision
  // ---------------------------------------------------------------------------

  lemma PutAppliedIff(g: Gate, pe: Event, at: Moment)
    requires Shape(g)
    ensures Next(g, Put(pe, at)).1 == Applied <==> Landed(g.sched, Next(g, Put(pe, at)).0.sched, pe, at.tz)
  {
    hide MayApplyNow, NoteEdit, Upserted, ClassifyModified, Find, CancelFor;
    UpsertFinds(g.sched, pe, pe.id);
    ClassifyReflexive(pe, at.tz);
  }

  lemma DropAppliedIff(g: Gate, id: Uuid, at: Moment)
    requires Shape(g) && Has(g.sched, id)
    ensures Next(g, Drop(id, at)).1 == Applied <==> !Has(Next(g, Drop(id, at)).0.sched, id)
  {
    hide BeyondHorizon, NoteEdit, Deleted, Has, Find, CancelFor;
    DeleteFinds(g.sched, id, id);
    FindHas(Deleted(g.sched, id), id);
  }

  // ---------------------------------------------------------------------------
  // All of them
  // ---------------------------------------------------------------------------

  lemma {:induction false} PutsAppliedCount(g: Gate, s: seq<Event>, ps: seq<Event>, at: Moment)
    requires Shape(g) && DistinctIds(ps)
    requires forall i :: 0 <= i < |ps| ==> Find(g.sched, ps[i].id) == Find(s, ps[i].id)
    ensures Count(Outcomes(g, Puts(ps, at)), Applied) == HowManyLanded(s, Run(g, Puts(ps, at)).sched, ps, at.tz)
    decreases |ps|
  {
    hide Shape, Next, ChangeOf, Find;
    if ps != [] {
      var step := Put(ps[0], at);
      var next := Next(g, step).0;
      PutsTail(ps, at);
      PutAppliedIff(g, ps[0], at);
      ChangeOfSameFind(g.sched, s, ps[0], at.tz);
      StepKeepsShape(g, step);
      forall i | 0 <= i < |ps[1..]|
        ensures Find(next.sched, ps[1..][i].id) == Find(s, ps[1..][i].id)
      {
        StepElsewhere(g, step, ps[1..][i].id);
        assert ps[1..][i] == ps[i + 1];
      }
      PutsAppliedCount(next, s, ps[1..], at);
      RunElsewhere(next, Puts(ps[1..], at), ps[0].id);
    }
  }

  lemma {:induction false} DropsAppliedCount(g: Gate, ids: seq<Uuid>, at: Moment)
    requires Shape(g) && DistinctUuids(ids) && forall i :: 0 <= i < |ids| ==> Has(g.sched, ids[i])
    ensures Count(Outcomes(g, Drops(ids, at)), Applied) == HowManyGone(Run(g, Drops(ids, at)).sched, ids)
    decreases |ids|
  {
    hide Shape, Next, Has;
    if ids != [] {
      var step := Drop(ids[0], at);
      var next := Next(g, step).0;
      DropsTail(ids, at);
      DropAppliedIff(g, ids[0], at);
      StepKeepsShape(g, step);
      forall i | 0 <= i < |ids[1..]|
        ensures Has(next.sched, ids[1..][i])
      {
        StepElsewhere(g, step, ids[1..][i]);
        FindHas(g.sched, ids[1..][i]);
        FindHas(next.sched, ids[1..][i]);
      }
      DropsAppliedCount(next, ids[1..], at);
      RunElsewhere(next, Drops(ids[1..], at), ids[0]);
      FindHas(next.sched, ids[0]);
      FindHas(Run(g, Drops(ids, at)).sched, ids[0]);
    }
  }

  lemma {:induction false} GoneSameFinds(a: seq<Event>, b: seq<Event>, ids: seq<Uuid>)
    requires forall i :: 0 <= i < |ids| ==> Find(a, ids[i]) == Find(b, ids[i])
    ensures HowManyGone(a, ids) == HowManyGone(b, ids)
    decreases |ids|
  {
    hide Find, Has;
    if ids != [] {
      FindHas(a, ids[0]);
      FindHas(b, ids[0]);
      forall i | 0 <= i < |ids[1..]|
        ensures Find(a, ids[1..][i]) == Find(b, ids[1..][i])
      {
        assert ids[1..][i] == ids[i + 1];
      }
      GoneSameFinds(a, b, ids[1..]);
    }
  }

  /** After the deletions of a push: those counted as applied are the ids gone for good, and the table is shorter by them. */
  lemma DropsStage(g: Gate, proposed: seq<Event>, at: Moment)
    requires Shape(g) && !LoosensActive(proposed, at)
    ensures var ids, g2 := MissingIds(g.sched, proposed), AfterDrops(g, proposed, at);
      var gone := HowManyGone(AfterPush(g, proposed, at).sched, ids);
      && Count(Outcomes(Prepared(g, at), Drops(ids, at)), Applied) == gone
      && |g2.sched| + gone == |g.sched|
  {
    hide Shape, LoosensActive, MissingIds, Has, Find, Outcomes, AfterPush, Run, Prepared, Count;
    var ids, p, g2 := MissingIds(g.sched, proposed), Prepared(g, at), AfterDrops(g, proposed, at);
    PushInStages(g, proposed, at);
    PreparedKeepsSchedule(g, at);
    ShapeGivesIds(g);
    MissingIdsAre(g.sched, proposed);
    forall i | 0 <= i < |ids|
      ensures Has(p.sched, ids[i]) && Find(g2.sched, ids[i]) == Find(AfterPush(g, proposed, at).sched, ids[i])
    {
      assert ids[i] in ids;
      NotProposedAnywhere(proposed, ids[i]);
      RunElsewhere(g2, Puts(proposed, at), ids[i]);
    }
    DropsAppliedCount(p, ids, at);
    DropsShrink(p, ids, at);
    GoneSameFinds(g2.sched, AfterPush(g, proposed, at).sched, ids);
  }

  /** The changes counted as applied are the missing events that are gone and the changed ones stored as proposed. */
  lemma AppliedIsWhatLanded(g: Gate, proposed: seq<Event>, at: Moment)
    requires Shape(g) && DistinctIds(proposed) && !LoosensActive(proposed, at)
    ensures var h := AfterPush(g, proposed, at).sched;
      PushReport(g, proposed, at).applied
        == HowManyGone(h, MissingIds(g.sched, proposed)) + HowManyLanded(g.sched, h, proposed, at.tz)
  {
    hide Shape, LoosensActive, MissingIds, ChangeOf, Has, Find, Outcomes, PushSteps, AfterPush, Run, HowManyLanded, HowManyGone;
    var ids, p, g2 := MissingIds(g.sched, proposed), Prepared(g, at), AfterDrops(g, proposed, at);
    PushInStages(g, proposed, at);
    DropsStage(g, proposed, at);
    forall i | 0 <= i < |proposed|
      ensures Find(g2.sched, proposed[i].id) == Find(g.sched, proposed[i].id)
    {
      HasIff(proposed, proposed[i].id);
      DropsLeaveProposed(g, proposed, at, proposed[i].id);
    }
    PutsAppliedCount(g2, g.sched, proposed, at);
    CountInStages([NoEffect, NoEffect], Outcomes(p, Drops(ids, at)), Outcomes(g2, Puts(proposed, at)));
  }

  lemma CountInStages(a: seq<Outcome>, b: seq<Outcome>, c: seq<Outcome>)
    requires a == [NoEffect, NoEffect]
    ensures Count(a + b + c, Applied) == Count(b, Applied) + Count(c, Applied)
  {
    CountOfConcat(a + b, c, Applied);
    CountOfConcat(a, b, Applied);
    assert Count(a, Applied) == Count([NoEffect], Applied) == 0;
  }

  // ---------------------------------------------------------------------------
  // The verdict
  // ---------------------------------------------------------------------------

  lemma {:induction false} AllGoneIff(now: seq<Event>, ids: seq<Uuid>)
    ensures HowManyGone(now, ids) <= |ids|
    ensures HowManyGone(now, ids) == |ids| <==> forall i :: 0 <= i < |ids| ==> !Has(now, ids[i])
    decreases |ids|
  {
    hide Has;
    if ids != [] {
      AllGoneIff(now, ids[1..]);
      assert forall i :: 0 < i < |ids| ==> ids[i] == ids[1..][i - 1];
      assert forall i :: 0 <= i < |ids[1..]| ==> ids[1..][i] == ids[i + 1];
    }
  }

  ghost predicate LandedIfChanged(s: seq<Event>, now: seq<Event>, pe: Event, tz: int) {
    ChangeOf(s, pe, tz) == NoChange || Find(now, pe.id) == Some(pe)
  }

  lemma {:induction false} AllLandedIff(s: seq<Event>, now: seq<Event>, ps: seq<Event>, tz: int)
    ensures HowManyLanded(s, now, ps, tz) <= Changed(s, ps, tz)
    ensures HowManyLanded(s, now, ps, tz) == Changed(s, ps, tz) <==> forall i :: 0 <= i < |ps| ==> LandedIfChanged(s, now, ps[i], tz)
    decreases |ps|
  {
    hide ChangeOf, Find;
    if ps != [] {
      AllLandedIff(s, now, ps[1..], tz);
      assert forall i :: 0 < i < |ps| ==> ps[i] == ps[1..][i - 1];
      assert forall i :: 0 <= i < |ps[1..]| ==> ps[1..][i] == ps[i + 1];
    }
  }

  /**
   The verdict on a push that is not refused is "accepted" if and only if every missing event is gone and every
   proposed event that was a change is stored as proposed.
   */
  lemma AcceptedIff(g: Gate, proposed: seq<Event>, at: Moment)
    requires Shape(g) && DistinctIds(proposed) && !LoosensActive(proposed, at)
    ensures var h := AfterPush(g, proposed, at).sched;
      Verdict(PushReport(g, proposed, at)) == END_ACCEPTED <==>
        && (forall i :: 0 <= i < |MissingIds(g.sched, proposed)| ==> !Has(h, MissingIds(g.sched, proposed)[i]))
        && (forall i :: 0 <= i < |proposed| ==> LandedIfChanged(g.sched, h, proposed[i], at.tz))
  {
    hide Shape, LoosensActive, MissingIds, ChangeOf, Has, Find, Outcomes, PushSteps, AfterPush, HowManyLanded, HowManyGone,
      LandedIfChanged, Changed;
    var h := AfterPush(g, proposed, at).sched;
    AppliedIsWhatLanded(g, proposed, at);
    ReportAccounts(g, proposed, at);
    AllGoneIff(h, MissingIds(g.sched, proposed));
    AllLandedIff(g.sched, h, proposed, at.tz);
  }

  // ---------------------------------------------------------------------------
  // Room in the table
  // ---------------------------------------------------------------------------

  lemma DropShrinks(g: Gate, id: Uuid, at: Moment)
    requires Has(g.sched, id)
    ensures |Next(g, Drop(id, at)).0.sched| + (if Next(g, Drop(id, at)).1 == Applied then 1 else 0) == |g.sched|
  {
    hide BeyondHorizon, NoteEdit, CancelFor;
  }

  lemma {:induction false} DropsShrink(g: Gate, ids: seq<Uuid>, at: Moment)
    requires Shape(g) && DistinctUuids(ids) && forall i :: 0 <= i < |ids| ==> Has(g.sched, ids[i])
    ensures |Run(g, Drops(ids, at)).sched| + Count(Outcomes(g, Drops(ids, at)), Applied) == |g.sched|
    decreases |ids|
  {
    hide Shape, Next, Has;
    if ids != [] {
      var step := Drop(ids[0], at);
      var next := Next(g, step).0;
      DropsTail(ids, at);
      DropShrinks(g, ids[0], at);
      StepKeepsShape(g, step);
      forall i | 0 <= i < |ids[1..]|
        ensures Has(next.sched, ids[1..][i])
      {
        StepElsewhere(g, step, ids[1..][i]);
        FindHas(g.sched, ids[1..][i]);
        FindHas(next.sched, ids[1..][i]);
      }
      DropsShrink(next, ids[1..], at);
    }
  }

  lemma PutGrows(g: Gate, pe: Event, at: Moment)
    ensures |Next(g, Put(pe, at)).0.sched| <= |g.sched| + 1
  {
    hide ChangeOf, MayApplyNow, NoteEdit, CancelFor;
  }

  lemma {:induction false} PutsGrow(g: Gate, ps: seq<Event>, at: Moment)
    ensures |Run(g, Puts(ps, at)).sched| <= |g.sched| + |ps|
    decreases |ps|
  {
    hide Next;
    if ps != [] {
      PutsTail(ps, at);
      PutGrows(g, ps[0], at);
      PutsGrow(Next(g, Put(ps[0], at)).0, ps[1..], at);
    }
  }

  /** Deletions come first: what the push deletes makes room for what it adds. */
  lemma DeletionsMakeRoom(g: Gate, proposed: seq<Event>, at: Moment, i: nat)
    requires Shape(g) && DistinctIds(proposed) && !LoosensActive(proposed, at) && i < |proposed|
    requires |g.sched| - HowManyGone(AfterPush(g, proposed, at).sched, MissingIds(g.sched, proposed)) + i < MAX_EVENTS
    ensures Fits(BeforePut(g, proposed, at, i).sched, proposed[i].id)
  {
    hide Shape, LoosensActive, MissingIds, Has, Outcomes, AfterPush, AfterDrops, Run, HowManyGone;
    DropsStage(g, proposed, at);
    PutsGrow(AfterDrops(g, proposed, at), proposed[..i], at);
  }
}
