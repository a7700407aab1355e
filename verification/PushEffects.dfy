/**
 What one push does as a whole: it accounts for every difference, "accepted" means the stored schedule
 now agrees with the proposal, and, when nothing was let through by the free-edit or the far-future
 rule, no minute of any day loses its event.
 */
module PushEffects {
  import opened Machine
  import opened CivilDate
  import opened Events
  import opened NextStart
  import opened DayPlan
  import opened Classify
  import opened Integrity
  import opened IntegrityInvariants
  import opened Commitment

  // ---------------------------------------------------------------------------
  // Steps leave other events alone
  // ---------------------------------------------------------------------------

  predicate IsPushStep(step: Step) {
    step.Seal? || step.SettleTick? || step.Drop? || step.Put?
  }

  /** The one event id a push step may change in the schedule. */
  function Target(step: Step): Option<Uuid> {
    match step
    case Drop(id, _) => Some(id)
    case Put(pe, _) => Some(pe.id)
    case _ => None
  }

  lemma StepElsewhere(g: Gate, step: Step, id: Uuid)
    requires Shape(g) && IsPushStep(step) && Target(step) != Some(id)
    ensures Find(Next(g, step).0.sched, id) == Find(g.sched, id)
  {
    hide SealAll, NoteEdit, Deleted, Upserted, SecondsUntilNextStart, ChangeOf, MayApplyNow, Find;
    match step
    case Drop(gone, at) => DeleteFinds(g.sched, gone, id);
    case Put(pe, at) => UpsertFinds(g.sched, pe, id);
    case _ =>
  }

  lemma {:induction false} RunElsewhere(g: Gate, steps: seq<Step>, id: Uuid)
    requires Shape(g)
    requires forall i :: 0 <= i < |steps| ==> IsPushStep(steps[i]) && Target(steps[i]) != Some(id)
    ensures Find(Run(g, steps).sched, id) == Find(g.sched, id)
    decreases |steps|
  {
    hide Shape, Next, Find;
    if steps != [] {
      StepElsewhere(g, steps[0], id);
      StepKeepsShape(g, steps[0]);
      RunElsewhere(Next(g, steps[0]).0, steps[1..], id);
    }
  }

  lemma {:induction false} OutcomesOfConcat(g: Gate, a: seq<Step>, b: seq<Step>)
    ensures Outcomes(g, a + b) == Outcomes(g, a) + Outcomes(Run(g, a), b)
    decreases |a|
  {
    hide Next;
    if a == [] {
      assert a + b == b;
    } else {
      assert (a + b)[1..] == a[1..] + b;
      OutcomesOfConcat(Next(g, a[0]).0, a[1..], b);
    }
  }

  lemma {:induction false} CountOfConcat(a: seq<Outcome>, b: seq<Outcome>, o: Outcome)
    ensures Count(a + b, o) == Count(a, o) + Count(b, o)
  {
    if a == [] {
      assert a + b == b;
    } else {
      assert (a + b)[1..] == a[1..] + b;
      CountOfConcat(a[1..], b, o);
    }
  }

  lemma {:induction false} CountsPartition(os: seq<Outcome>)
    ensures Count(os, NoEffect) + Count(os, Applied) + Count(os, Queued) + Count(os, LostQueueFull) == |os|
  {
    if os != [] {
      CountsPartition(os[1..]);
    }
  }

  lemma PutsTail(ps: seq<Event>, at: Moment)
    requires ps != []
    ensures Puts(ps, at)[0] == Put(ps[0], at) && Puts(ps, at)[1..] == Puts(ps[1..], at)
  {
  }

  lemma DropsTail(ids: seq<Uuid>, at: Moment)
    requires ids != []
    ensures Drops(ids, at)[0] == Drop(ids[0], at) && Drops(ids, at)[1..] == Drops(ids[1..], at)
  {
  }

  // ---------------------------------------------------------------------------
  // The missing ids
  // ---------------------------------------------------------------------------

  ghost predicate DistinctUuids(ids: seq<Uuid>) {
    forall i, j :: 0 <= i < j < |ids| ==> ids[i] != ids[j]
  }

  lemma {:induction false} HasIff(s: seq<Event>, id: Uuid)
    ensures Has(s, id) <==> exists i :: 0 <= i < |s| && s[i].id == id
  {
  }

  /** Exactly the stored ids that are not proposed, each once. */
  lemma {:induction false} MissingIdsAre(s: seq<Event>, proposed: seq<Event>)
    requires DistinctIds(s)
    ensures DistinctUuids(MissingIds(s, proposed))
    ensures forall id :: id in MissingIds(s, proposed) <==> Has(s, id) && !Has(proposed, id)
  {
    hide Has;
    if s == [] {
      forall id
        ensures !Has([], id)
      {
        HasIff([], id);
      }
    } else {
      var front, last := s[..|s| - 1], s[|s| - 1].id;
      MissingIdsAre(front, proposed);
      forall id
        ensures Has(s, id) <==> Has(front, id) || id == last
      {
        HasAppend(front, s[|s| - 1], id);
        assert s == front + [s[|s| - 1]];
      }
      HasIff(front, last);
    }
  }

  lemma HasAppend(s: seq<Event>, e: Event, id: Uuid)
    ensures Has(s + [e], id) <==> Has(s, id) || id == e.id
  {
    hide Has;
    HasIff(s, id);
    HasIff(s + [e], id);
    if Has(s, id) {
      var i :| 0 <= i < |s| && s[i].id == id;
      assert (s + [e])[i].id == id;
    }
    assert (s + [e])[|s|] == e;
  }

  // ---------------------------------------------------------------------------
  // The accounting
  // ---------------------------------------------------------------------------

  /** How many proposed events differ from what is stored. */
  ghost function Changed(s: seq<Event>, ps: seq<Event>, tz: int): nat {
    if ps == [] then 0
    else (if ChangeOf(s, ps[0], tz) == NoChange then 0 else 1) + Changed(s, ps[1..], tz)
  }

  lemma {:induction false} DropsAlwaysCount(g: Gate, ids: seq<Uuid>, at: Moment)
    requires Shape(g) && DistinctUuids(ids)
    requires forall i :: 0 <= i < |ids| ==> Has(g.sched, ids[i])
    ensures Count(Outcomes(g, Drops(ids, at)), NoEffect) == 0
    decreases |ids|
  {
    hide Shape, Next, Has;
    if ids != [] {
      var step := Drop(ids[0], at);
      DropsTail(ids, at);
      DropCounts(g, ids[0], at);
      StepKeepsShape(g, step);
      forall i | 0 <= i < |ids[1..]|
        ensures Has(Next(g, step).0.sched, ids[1..][i])
      {
        StepElsewhere(g, step, ids[1..][i]);
        FindHas(g.sched, ids[1..][i]);
        FindHas(Next(g, step).0.sched, ids[1..][i]);
      }
      DropsAlwaysCount(Next(g, step).0, ids[1..], at);
    }
  }

  lemma FindHas(s: seq<Event>, id: Uuid)
    ensures Has(s, id) <==> Find(s, id).Some?
  {
  }

  lemma DropCounts(g: Gate, id: Uuid, at: Moment)
    requires Has(g.sched, id)
    ensures Next(g, Drop(id, at)).1 != NoEffect
  {
    hide Has, SecondsUntilNextStart, NoteEdit, Deleted;
  }

  lemma PutCounts(g: Gate, pe: Event, at: Moment)
    ensures Next(g, Put(pe, at)).1 == NoEffect <==> ChangeOf(g.sched, pe, at.tz) == NoChange
  {
    hide ChangeOf, MayApplyNow, NoteEdit, Upserted;
  }

  lemma ChangeOfSameFind(s: seq<Event>, r: seq<Event>, pe: Event, tz: int)
    requires Find(s, pe.id) == Find(r, pe.id)
    ensures ChangeOf(s, pe, tz) == ChangeOf(r, pe, tz)
  {
    hide ClassifyModified;
  }

  lemma {:induction false} PutsCountChanges(g: Gate, s: seq<Event>, ps: seq<Event>, at: Moment)
    requires Shape(g) && DistinctIds(ps)
    requires forall i :: 0 <= i < |ps| ==> Find(g.sched, ps[i].id) == Find(s, ps[i].id)
    ensures Count(Outcomes(g, Puts(ps, at)), NoEffect) + Changed(s, ps, at.tz) == |ps|
    decreases |ps|
  {
    hide Shape, Next, ChangeOf, Find;
    if ps != [] {
      var step := Put(ps[0], at);
      PutsTail(ps, at);
      PutCounts(g, ps[0], at);
      ChangeOfSameFind(g.sched, s, ps[0], at.tz);
      StepKeepsShape(g, step);
      forall i | 0 <= i < |ps[1..]|
        ensures Find(Next(g, step).0.sched, ps[1..][i].id) == Find(s, ps[1..][i].id)
      {
        StepElsewhere(g, step, ps[1..][i].id);
        assert ps[1..][i] == ps[i + 1];
      }
      PutsCountChanges(Next(g, step).0, s, ps[1..], at);
    }
  }

  /** The state in which the decisions start: the tables sealed and settled, the schedule untouched. */
  ghost function Prepared(g: Gate, at: Moment): Gate {
    Run(g, Preamble(at))
  }

  lemma PreparedKeepsSchedule(g: Gate, at: Moment)
    requires Shape(g)
    ensures Prepared(g, at).sched == g.sched && Shape(Prepared(g, at))
    ensures Outcomes(g, Preamble(at)) == [NoEffect, NoEffect]
  {
    hide SealAll, SettleAll, Shape;
    RunKeepsShape(g, Preamble(at));
    var g1 := Next(g, Seal(at.nowS)).0;
    assert Preamble(at)[1..] == [SettleTick(at.nowS)];
    assert Run(g1, [SettleTick(at.nowS)]) == Next(g1, SettleTick(at.nowS)).0;
  }

  ghost function AfterDrops(g: Gate, proposed: seq<Event>, at: Moment): Gate {
    Run(Prepared(g, at), Drops(MissingIds(g.sched, proposed), at))
  }

  /** The three stages of a push that is not rejected. */
  lemma PushInStages(g: Gate, proposed: seq<Event>, at: Moment)
    requires Shape(g) && !LoosensActive(proposed, at)
    ensures Shape(AfterDrops(g, proposed, at))
    ensures AfterPush(g, proposed, at) == Run(AfterDrops(g, proposed, at), Puts(proposed, at))
    ensures Outcomes(g, PushSteps(g, proposed, at))
         == [NoEffect, NoEffect]
          + Outcomes(Prepared(g, at), Drops(MissingIds(g.sched, proposed), at))
          + Outcomes(AfterDrops(g, proposed, at), Puts(proposed, at))
  {
    hide Shape, LoosensActive, MissingIds;
    var drops, puts := Drops(MissingIds(g.sched, proposed), at), Puts(proposed, at);
    PreparedKeepsSchedule(g, at);
    RunOfConcat(g, Preamble(at), drops + puts);
    RunOfConcat(Prepared(g, at), drops, puts);
    RunKeepsShape(Prepared(g, at), drops);
    OutcomesOfConcat(g, Preamble(at), drops + puts);
    OutcomesOfConcat(Prepared(g, at), drops, puts);
  }

  lemma DropsLeaveProposed(g: Gate, proposed: seq<Event>, at: Moment, id: Uuid)
    requires Shape(g) && Has(proposed, id)
    ensures Find(AfterDrops(g, proposed, at).sched, id) == Find(g.sched, id)
  {
    hide Shape, Has, Find, MissingIds;
    PreparedKeepsSchedule(g, at);
    assert DistinctIds(g.sched) by { ShapeGivesIds(g); }
    MissingIdsAre(g.sched, proposed);
    var ids := MissingIds(g.sched, proposed);
    forall i | 0 <= i < |ids|
      ensures ids[i] != id
    {
      assert ids[i] in ids;
    }
    RunElsewhere(Prepared(g, at), Drops(ids, at), id);
  }

  lemma ShapeGivesIds(g: Gate)
    requires Shape(g)
    ensures DistinctIds(g.sched) && |g.sched| <= MAX_EVENTS
  {
  }

  /**
   Every difference is accounted for once: applied, quarantined and dropped add up to the stored ids the
   proposal leaves out plus the proposed events that differ from what was stored before the push.
   */
  lemma ReportAccounts(g: Gate, proposed: seq<Event>, at: Moment)
    requires Shape(g) && DistinctIds(proposed) && !LoosensActive(proposed, at)
    ensures var r := PushReport(g, proposed, at);
      r.applied + r.quarantined + r.droppedQueueFull
        == |MissingIds(g.sched, proposed)| + Changed(g.sched, proposed, at.tz)
  {
    hide Shape, LoosensActive, MissingIds, ChangeOf, Has, Find, Outcomes, PushSteps;
    var ids := MissingIds(g.sched, proposed);
    PushInStages(g, proposed, at);
    PreparedKeepsSchedule(g, at);
    ShapeGivesIds(g);
    MissingIdsAre(g.sched, proposed);
    forall i | 0 <= i < |ids|
      ensures Has(Prepared(g, at).sched, ids[i])
    {
      assert ids[i] in ids;
    }
    DropsAlwaysCount(Prepared(g, at), ids, at);
    var g2 := AfterDrops(g, proposed, at);
    forall i | 0 <= i < |proposed|
      ensures Find(g2.sched, proposed[i].id) == Find(g.sched, proposed[i].id)
    {
      HasIff(proposed, proposed[i].id);
      DropsLeaveProposed(g, proposed, at, proposed[i].id);
    }
    PutsCountChanges(g2, g.sched, proposed, at);
    var a, b, c := [NoEffect, NoEffect], Outcomes(Prepared(g, at), Drops(ids, at)), Outcomes(g2, Puts(proposed, at));
    CountOfConcat(a + b, c, NoEffect);
    CountOfConcat(a, b, NoEffect);
    assert Count(a, NoEffect) == 1 + Count([NoEffect], NoEffect) == 2;
    CountsPartition(a + b + c);
  }

  // ---------------------------------------------------------------------------
  // What "accepted" means
  // ---------------------------------------------------------------------------

  /** The stored event with this id and the proposed one are classified as no change. */
  ghost predicate Agrees(s: seq<Event>, pe: Event, tz: int) {
    Has(s, pe.id) && ChangeOf(s, pe, tz) == NoChange
  }

  ghost predicate NothingHeldBack(os: seq<Outcome>) {
    Count(os, Queued) == 0 && Count(os, LostQueueFull) == 0
  }

  lemma HeldBackParts(a: seq<Outcome>, b: seq<Outcome>)
    requires NothingHeldBack(a + b)
    ensures NothingHeldBack(a) && NothingHeldBack(b)
  {
    CountOfConcat(a, b, Queued);
    CountOfConcat(a, b, LostQueueFull);
  }

  lemma PutAgrees(g: Gate, pe: Event, at: Moment)
    requires Shape(g) && NothingHeldBack([Next(g, Put(pe, at)).1])
    ensures Agrees(Next(g, Put(pe, at)).0.sched, pe, at.tz)
  {
    hide MayApplyNow, NoteEdit, Upserted, ClassifyModified;
    var (next, o) := Next(g, Put(pe, at));
    assert [o][1..] == [];
    assert o != Queued && o != LostQueueFull;
    if o == Applied {
      UpsertFinds(g.sched, pe, pe.id);
      ClassifyReflexive(pe, at.tz);
    }
    FindHas(next.sched, pe.id);
  }

  lemma DropRemoves(g: Gate, id: Uuid, at: Moment)
    requires Shape(g) && Has(g.sched, id) && NothingHeldBack([Next(g, Drop(id, at)).1])
    ensures !Has(Next(g, Drop(id, at)).0.sched, id)
  {
    hide SecondsUntilNextStart, NoteEdit, Deleted;
    var (next, o) := Next(g, Drop(id, at));
    assert [o][1..] == [];
    assert o != Queued && o != LostQueueFull;
    DeleteFinds(g.sched, id, id);
    FindHas(next.sched, id);
  }

  lemma {:induction false} PutsAgree(g: Gate, ps: seq<Event>, at: Moment)
    requires Shape(g) && DistinctIds(ps) && NothingHeldBack(Outcomes(g, Puts(ps, at)))
    ensures forall i :: 0 <= i < |ps| ==> Agrees(Run(g, Puts(ps, at)).sched, ps[i], at.tz)
    decreases |ps|
  {
    hide Shape, Next, Agrees;
    if ps != [] {
      var step := Put(ps[0], at);
      var next := Next(g, step).0;
      PutsTail(ps, at);
      HeldBackParts([Next(g, step).1], Outcomes(next, Puts(ps[1..], at)));
      PutAgrees(g, ps[0], at);
      StepKeepsShape(g, step);
      PutsAgree(next, ps[1..], at);
      RunElsewhere(next, Puts(ps[1..], at), ps[0].id);
      AgreesSameFind(next.sched, Run(g, Puts(ps, at)).sched, ps[0], at.tz);
      forall i | 0 <= i < |ps|
        ensures Agrees(Run(g, Puts(ps, at)).sched, ps[i], at.tz)
      {
        assert i > 0 ==> ps[i] == ps[1..][i - 1];
      }
    }
  }

  lemma AgreesSameFind(s: seq<Event>, r: seq<Event>, pe: Event, tz: int)
    requires Find(s, pe.id) == Find(r, pe.id) && Agrees(s, pe, tz)
    ensures Agrees(r, pe, tz)
  {
    ChangeOfSameFind(s, r, pe, tz);
    FindHas(s, pe.id);
    FindHas(r, pe.id);
  }

  lemma {:induction false} DropsRemove(g: Gate, ids: seq<Uuid>, at: Moment)
    requires Shape(g) && DistinctUuids(ids) && NothingHeldBack(Outcomes(g, Drops(ids, at)))
    requires forall i :: 0 <= i < |ids| ==> Has(g.sched, ids[i])
    ensures forall i :: 0 <= i < |ids| ==> !Has(Run(g, Drops(ids, at)).sched, ids[i])
    decreases |ids|
  {
    hide Shape, Next, Has;
    if ids != [] {
      var step := Drop(ids[0], at);
      var next := Next(g, step).0;
      DropsTail(ids, at);
      HeldBackParts([Next(g, step).1], Outcomes(next, Drops(ids[1..], at)));
      DropRemoves(g, ids[0], at);
      StepKeepsShape(g, step);
      forall i | 0 <= i < |ids[1..]|
        ensures Has(next.sched, ids[1..][i])
      {
        StepElsewhere(g, step, ids[1..][i]);
        FindHas(g.sched, ids[1..][i]);
        FindHas(next.sched, ids[1..][i]);
      }
      DropsRemove(next, ids[1..], at);
      RunElsewhere(next, Drops(ids[1..], at), ids[0]);
      FindHas(next.sched, ids[0]);
      FindHas(Run(g, Drops(ids, at)).sched, ids[0]);
      forall i | 0 <= i < |ids|
        ensures !Has(Run(g, Drops(ids, at)).sched, ids[i])
      {
        assert i > 0 ==> ids[i] == ids[1..][i - 1];
      }
    }
  }

  /**
   An accepted push leaves a schedule that holds the proposed ids and no others, every stored event
   classified as no change from the proposed one.
   */
  lemma AcceptedMeansAgreement(g: Gate, proposed: seq<Event>, at: Moment)
    requires Shape(g) && DistinctIds(proposed)
    requires Verdict(PushReport(g, proposed, at)) == END_ACCEPTED
    ensures forall i :: 0 <= i < |proposed| ==> Agrees(AfterPush(g, proposed, at).sched, proposed[i], at.tz)
    ensures forall id :: Has(AfterPush(g, proposed, at).sched, id) <==> Has(proposed, id)
  {
    hide Shape, LoosensActive, MissingIds, ChangeOf, Has, Find, Outcomes, PushSteps;
    var ids := MissingIds(g.sched, proposed);
    PushInStages(g, proposed, at);
    PreparedKeepsSchedule(g, at);
    ShapeGivesIds(g);
    MissingIdsAre(g.sched, proposed);
    var g1, g2 := Prepared(g, at), AfterDrops(g, proposed, at);
    var b, c := Outcomes(g1, Drops(ids, at)), Outcomes(g2, Puts(proposed, at));
    HeldBackParts([NoEffect, NoEffect] + b, c);
    HeldBackParts([NoEffect, NoEffect], b);
    forall i | 0 <= i < |ids|
      ensures Has(g1.sched, ids[i])
    {
      assert ids[i] in ids;
    }
    DropsRemove(g1, ids, at);
    PutsAgree(g2, proposed, at);
    forall id
      ensures Has(AfterPush(g, proposed, at).sched, id) <==> Has(proposed, id)
    {
      HasIff(proposed, id);
      if Has(proposed, id) {
        var i :| 0 <= i < |proposed| && proposed[i].id == id;
        assert Agrees(AfterPush(g, proposed, at).sched, proposed[i], at.tz);
      } else {
        RunElsewhere(g2, Puts(proposed, at), id);
        FindHas(g2.sched, id);
        FindHas(AfterPush(g, proposed, at).sched, id);
        if id in ids {
          var i :| 0 <= i < |ids| && ids[i] == id;
        } else {
          RunElsewhere(g1, Drops(ids, at), id);
          FindHas(g1.sched, id);
        }
      }
    }
  }

  lemma {:induction false} AgreedPutsDoNothing(g: Gate, ps: seq<Event>, at: Moment)
    requires Shape(g) && forall i :: 0 <= i < |ps| ==> Agrees(g.sched, ps[i], at.tz)
    ensures Run(g, Puts(ps, at)) == g
    ensures forall i :: 0 <= i < |ps| ==> Outcomes(g, Puts(ps, at))[i] == NoEffect
    decreases |ps|
  {
    hide Shape, ChangeOf, Has;
    if ps != [] {
      PutsTail(ps, at);
      AgreedPutsDoNothing(g, ps[1..], at);
    }
  }

  lemma {:induction false} NoneMissing(s: seq<Event>, proposed: seq<Event>)
    requires forall i :: 0 <= i < |s| ==> Has(proposed, s[i].id)
    ensures MissingIds(s, proposed) == []
  {
    if s != [] {
      NoneMissing(s[..|s| - 1], proposed);
    }
  }

  lemma {:induction false} AllNoEffect(os: seq<Outcome>)
    requires forall i :: 0 <= i < |os| ==> os[i] == NoEffect
    ensures Count(os, Applied) == Count(os, Queued) == Count(os, LostQueueFull) == 0
  {
    if os != [] {
      AllNoEffect(os[1..]);
    }
  }

  /** Pushing an accepted schedule again, now or later, applies nothing and changes nothing stored. */
  lemma RepushIsIdle(g: Gate, proposed: seq<Event>, at: Moment, later: Moment)
    requires Shape(g) && DistinctIds(proposed)
    requires Verdict(PushReport(g, proposed, at)) == END_ACCEPTED
    requires later.tz == at.tz && !LoosensActive(proposed, later)
    ensures var h := AfterPush(g, proposed, at);
      && PushReport(h, proposed, later) == Report(0, 0, 0, false)
      && AfterPush(h, proposed, later).sched == h.sched
  {
    hide Shape, LoosensActive, MissingIds, ChangeOf, Has, Outcomes, PushSteps, Agrees, Find;
    var h := AfterPush(g, proposed, at);
    AcceptedMeansAgreement(g, proposed, at);
    RunKeepsShape(g, PushSteps(g, proposed, at));
    forall i | 0 <= i < |h.sched|
      ensures Has(proposed, h.sched[i].id)
    {
      HasIff(h.sched, h.sched[i].id);
    }
    NoneMissing(h.sched, proposed);
    PushInStages(h, proposed, later);
    PreparedKeepsSchedule(h, later);
    assert Drops([], later) == [];
    var g2 := AfterDrops(h, proposed, later);
    assert g2 == Prepared(h, later);
    AgreedPutsDoNothing(g2, proposed, later);
    var os := Outcomes(h, PushSteps(h, proposed, later));
    NoOutcomes(Prepared(h, later));
    AllNoEffect(os);
  }

  lemma NoOutcomes(g: Gate)
    ensures Outcomes(g, []) == []
  {
  }

  // ---------------------------------------------------------------------------
  // No minute is uncovered
  // ---------------------------------------------------------------------------

  /** Every event of `s` is still in `r`, in a version no edit would call a loosening. */
  ghost predicate NoLooser(s: seq<Event>, r: seq<Event>, tz: int) {
    forall id :: Has(s, id) ==> KeptTight(s, r, id, tz)
  }

  ghost predicate KeptTight(s: seq<Event>, r: seq<Event>, id: Uuid, tz: int)
    requires Has(s, id)
  {
    var f := Find(r, id);
    f.Some? && IsInstant(ClassifyModified(Find(s, id).value, f.value, tz))
  }

  lemma NoLooserComposes(s: seq<Event>, r: seq<Event>, q: seq<Event>, tz: int)
    requires NoLooser(s, r, tz) && NoLooser(r, q, tz)
    ensures NoLooser(s, q, tz)
  {
    hide ClassifyModified, Find, Has;
    forall id | Has(s, id)
      ensures KeptTight(s, q, id, tz)
    {
      assert KeptTight(s, r, id, tz);
      FindHas(r, id);
      FindHas(s, id);
      assert KeptTight(r, q, id, tz);
      InstantIsTransitive(Find(s, id).value, Find(r, id).value, Find(q, id).value, tz);
    }
  }

  lemma SameIsNoLooser(s: seq<Event>, tz: int)
    ensures NoLooser(s, s, tz)
  {
    forall id | Has(s, id)
      ensures KeptTight(s, s, id, tz)
    {
      ClassifyReflexive(Find(s, id).value, tz);
    }
  }

  /** Whatever this step applied, it applied because the classifier called it a tightening. */
  ghost predicate ByTightening(g: Gate, step: Step) {
    Next(g, step).1 == Applied ==> step.Put? && IsInstant(ChangeOf(g.sched, step.event, step.at.tz))
  }

  /** Neither the free-edit window nor the far-future rule let anything through. */
  ghost predicate OnlyTightens(g: Gate, steps: seq<Step>)
    decreases |steps|
  {
    steps == [] || (ByTightening(g, steps[0]) && OnlyTightens(Next(g, steps[0]).0, steps[1..]))
  }

  predicate AtZone(step: Step, tz: int) {
    match step
    case Drop(_, at) => at.tz == tz
    case Put(_, at) => at.tz == tz
    case _ => true
  }

  lemma TighteningUpsert(s: seq<Event>, pe: Event, tz: int)
    requires DistinctIds(s) && |s| <= MAX_EVENTS && IsInstant(ChangeOf(s, pe, tz))
    ensures NoLooser(s, Upserted(s, pe), tz)
  {
    hide Upserted, Find, ClassifyModified, Has;
    forall id | Has(s, id)
      ensures KeptTight(s, Upserted(s, pe), id, tz)
    {
      UpsertFinds(s, pe, id);
      FindHas(s, id);
      ClassifyReflexive(Find(s, id).value, tz);
    }
  }

  lemma TighteningStep(g: Gate, step: Step, tz: int)
    requires Shape(g) && IsPushStep(step) && AtZone(step, tz) && ByTightening(g, step)
    ensures NoLooser(g.sched, Next(g, step).0.sched, tz)
  {
    hide SealAll, NoteEdit, Deleted, Upserted, BeyondHorizon, WithinFreeEdit, NoLooser, CancelFor, Quarantine, ChangeOf, Has;
    SameIsNoLooser(g.sched, tz);
    match step
    case Drop(id, at) =>
      QuarantineTouchesOnlyTheQueue(g, Pending(true, PendingDelete, id, at.nowS + LOOSEN_DELAY_S, EmptyEvent()));
    case Put(pe, at) =>
      QuarantineTouchesOnlyTheQueue(g, Pending(true, PendingUpsert, pe.id, at.nowS + LOOSEN_DELAY_S, pe));
      if Next(g, step).1 == Applied {
        TighteningUpsert(g.sched, pe, tz);
      }
    case _ =>
  }

  lemma {:induction false} TighteningRun(g: Gate, steps: seq<Step>, tz: int)
    requires Shape(g) && OnlyTightens(g, steps)
    requires forall i :: 0 <= i < |steps| ==> IsPushStep(steps[i]) && AtZone(steps[i], tz)
    ensures NoLooser(g.sched, Run(g, steps).sched, tz)
    decreases |steps|
  {
    hide Shape, Next, NoLooser;
    if steps == [] {
      SameIsNoLooser(g.sched, tz);
    } else {
      var next := Next(g, steps[0]).0;
      TighteningStep(g, steps[0], tz);
      StepKeepsShape(g, steps[0]);
      TighteningRun(next, steps[1..], tz);
      NoLooserComposes(g.sched, next.sched, Run(g, steps).sched, tz);
    }
  }

  /** A push in which only tightenings applied keeps every event at least as binding. */
  lemma PushIsNoLooser(g: Gate, proposed: seq<Event>, at: Moment)
    requires Shape(g) && OnlyTightens(g, PushSteps(g, proposed, at))
    ensures Shape(AfterPush(g, proposed, at))
    ensures NoLooser(g.sched, AfterPush(g, proposed, at).sched, at.tz)
  {
    hide Shape, LoosensActive, MissingIds, OnlyTightens, NoLooser;
    RunKeepsShape(g, PushSteps(g, proposed, at));
    TighteningRun(g, PushSteps(g, proposed, at), at.tz);
  }

  predicate RoomFor(day: Day) {
    |OccurringIds(day, |day.events|)| <= MAX_EVENTS_PER_DAY
  }

  /** Gate, classifier, day plan and lookup together: what was active stays covered. */
  lemma NoLooserKeepsCover(s: seq<Event>, r: seq<Event>, date: Date, minute: int, tz: int)
    requires DistinctIds(s) && DistinctIds(r) && NoLooser(s, r, tz)
    requires RoomFor(Day(s, date, tz)) && RoomFor(Day(r, date, tz))
    requires Indexes(DayPlanOf(Day(s, date, tz)), |s|) && Indexes(DayPlanOf(Day(r, date, tz)), |r|)
    requires ActiveAt(s, DayPlanOf(Day(s, date, tz)), minute).Some?
    ensures ActiveAt(r, DayPlanOf(Day(r, date, tz)), minute).Some?
  {
    hide OccursOn, DayPlanOf, ClassifyModified, Survives, OccurringIds, ActiveAt;
    var old_, new_ := Day(s, date, tz), Day(r, date, tz);
    ActiveIsEarliest(old_, minute);
    var a := ActiveAt(s, DayPlanOf(old_), minute).value;
    DistinctSurvivors(old_, a);
    FindIs(s, a);
    assert Has(s, s[a].id);
    assert KeptTight(s, r, s[a].id, tz);
    InstantBindsAtLeast(s[a], Find(r, s[a].id).value, tz);
    assert Enforces(s[a], date, minute, tz);
    var w := IndexOf(r, s[a].id);
    assert Enforces(r[w], date, minute, tz);
    DistinctSurvivors(new_, w);
    ActiveIsEarliest(new_, minute);
  }

  /**
   A push that uses neither the free-edit nor the horizon rule never uncovers a minute: for every date
   and minute with an active event before it, there is one after it.
   */
  lemma PushUncoversNothing(g: Gate, proposed: seq<Event>, at: Moment, date: Date, minute: int)
    requires Shape(g) && OnlyTightens(g, PushSteps(g, proposed, at))
    requires RoomFor(Day(g.sched, date, at.tz)) && RoomFor(Day(AfterPush(g, proposed, at).sched, date, at.tz))
    ensures var before, after := Day(g.sched, date, at.tz), Day(AfterPush(g, proposed, at).sched, date, at.tz);
      && Indexes(DayPlanOf(before), |before.events|) && Indexes(DayPlanOf(after), |after.events|)
      && (ActiveAt(before.events, DayPlanOf(before), minute).Some? ==>
            ActiveAt(after.events, DayPlanOf(after), minute).Some?)
  {
    hide Shape, NoLooser, DayPlanOf, ActiveAt, OccurringIds, PushSteps, OnlyTightens;
    PushIsNoLooser(g, proposed, at);
    ShapeGivesIds(g);
    ShapeGivesIds(AfterPush(g, proposed, at));
    var before, after := Day(g.sched, date, at.tz), Day(AfterPush(g, proposed, at).sched, date, at.tz);
    PlanIsTheSurvivors(before);
    PlanIsTheSurvivors(after);
    if ActiveAt(before.events, DayPlanOf(before), minute).Some? {
      NoLooserKeepsCover(before.events, after.events, date, minute, at.tz);
    }
  }
}
