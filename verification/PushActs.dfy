/**
 What a push does, not just what it may not do: which proposed events are stored at once, which stored ones
 are gone, which changes wait, and when the whole push is refused.
 */
module PushActs {
  import opened Machine
  import opened Events
  import opened NextStart
  import opened Classify
  import opened Integrity
  import opened IntegrityInvariants
  import opened Commitment
  import opened PushEffects
  import opened Standing
  import Watch

  // ---------------------------------------------------------------------------
  // Where in the push the decision is taken
  // ---------------------------------------------------------------------------

  /** The tables when the push comes to its `i`-th proposed event. */
  ghost function BeforePut(g: Gate, proposed: seq<Event>, at: Moment, i: nat): Gate
    requires i <= |proposed|
  {
    Run(AfterDrops(g, proposed, at), Puts(proposed[..i], at))
  }

  /** The tables when the push comes to its `k`-th missing event. */
  ghost function BeforeDrop(g: Gate, proposed: seq<Event>, at: Moment, k: nat): Gate
    requires k <= |MissingIds(g.sched, proposed)|
  {
    Run(Prepared(g, at), Drops(MissingIds(g.sched, proposed)[..k], at))
  }

  lemma PutsSplit(ps: seq<Event>, at: Moment, i: nat)
    requires i < |ps|
    ensures Puts(ps, at) == Puts(ps[..i], at) + [Put(ps[i], at)] + Puts(ps[i + 1..], at)
  {
  }

  lemma DropsSplit(ids: seq<Uuid>, at: Moment, k: nat)
    requires k < |ids|
    ensures Drops(ids, at) == Drops(ids[..k], at) + [Drop(ids[k], at)] + Drops(ids[k + 1..], at)
  {
  }

  lemma RunOneMore(g: Gate, a: seq<Step>, step: Step, b: seq<Step>)
    ensures Run(g, a + [step] + b) == Run(Next(Run(g, a), step).0, b)
  {
    hide Next;
    RunOfConcat(g, a + [step], b);
    RunOfConcat(g, a, [step]);
    assert Run(Run(g, a), [step]) == Run(Next(Run(g, a), step).0, []);
  }

  lemma DropsStandElsewhere(g: Gate, ids: seq<Uuid>, at: Moment, id: Uuid)
    requires Shape(g) && id !in ids
    ensures StandingOf(Run(g, Drops(ids, at)), id) == StandingOf(g, id) && Shape(Run(g, Drops(ids, at)))
  {
    hide Shape, StandingOf, Run;
    forall i | 0 <= i < |ids|
      ensures ids[i] != id
    {
      assert ids[i] in ids;
    }
    RunStandsElsewhere(g, Drops(ids, at), id);
  }

  lemma PutsStandElsewhere(g: Gate, ps: seq<Event>, at: Moment, id: Uuid)
    requires Shape(g) && NoneNamed(ps, id)
    ensures StandingOf(Run(g, Puts(ps, at)), id) == StandingOf(g, id) && Shape(Run(g, Puts(ps, at)))
  {
    hide Shape, StandingOf, Run;
    RunStandsElsewhere(g, Puts(ps, at), id);
  }

  lemma ProposedIsNotMissing(s: seq<Event>, proposed: seq<Event>, i: nat)
    requires DistinctIds(s) && i < |proposed|
    ensures proposed[i].id !in MissingIds(s, proposed)
  {
    hide MissingIds, Has;
    MissingIdsAre(s, proposed);
    HasIff(proposed, proposed[i].id);
  }

  lemma OthersBefore(proposed: seq<Event>, i: nat)
    requires DistinctIds(proposed) && i < |proposed|
    ensures NoneNamed(proposed[..i], proposed[i].id)
    ensures NoneNamed(proposed[i + 1..], proposed[i].id)
  {
  }

  predicate NoneNamed(ps: seq<Event>, id: Uuid) {
    forall k :: 0 <= k < |ps| ==> ps[k].id != id
  }

  lemma BeforePutStands(g: Gate, proposed: seq<Event>, at: Moment, i: nat)
    requires Shape(g) && DistinctIds(proposed) && i < |proposed|
    ensures var h, id := BeforePut(g, proposed, at, i), proposed[i].id;
      Shape(h) && StandingOf(h, id) == StandingOf(Prepared(g, at), id)
  {
    hide Shape, MissingIds, StandingOf, Run, Next, Has;
    ShapeGivesIds(g);
    PreparedKeepsSchedule(g, at);
    ProposedIsNotMissing(g.sched, proposed, i);
    OthersBefore(proposed, i);
    DropsStandElsewhere(Prepared(g, at), MissingIds(g.sched, proposed), at, proposed[i].id);
    PutsStandElsewhere(AfterDrops(g, proposed, at), proposed[..i], at, proposed[i].id);
  }

  /** Up to the decision about a proposed event, and after it, the push leaves the event's standing alone. */
  lemma PutInPush(g: Gate, proposed: seq<Event>, at: Moment, i: nat)
    requires Shape(g) && DistinctIds(proposed) && !LoosensActive(proposed, at) && i < |proposed|
    ensures var h, id := BeforePut(g, proposed, at, i), proposed[i].id;
      && Shape(h) && StandingOf(h, id) == StandingOf(Prepared(g, at), id)
      && StandingOf(AfterPush(g, proposed, at), id) == StandingOf(Next(h, Put(proposed[i], at)).0, id)
  {
    hide Shape, LoosensActive, MissingIds, StandingOf, Run, Next, Has, AfterPush, AfterDrops, Prepared, Drops, Puts;
    var h := BeforePut(g, proposed, at, i);
    BeforePutStands(g, proposed, at, i);
    PushInStages(g, proposed, at);
    PutsSplit(proposed, at, i);
    OthersBefore(proposed, i);
    hide DistinctIds;
    RunOneMore(AfterDrops(g, proposed, at), Puts(proposed[..i], at), Put(proposed[i], at), Puts(proposed[i + 1..], at));
    StepKeepsShape(h, Put(proposed[i], at));
    PutsStandElsewhere(Next(h, Put(proposed[i], at)).0, proposed[i + 1..], at, proposed[i].id);
  }

  /** The same for a missing event. */
  lemma DropInPush(g: Gate, proposed: seq<Event>, at: Moment, k: nat)
    requires Shape(g) && !LoosensActive(proposed, at) && k < |MissingIds(g.sched, proposed)|
    ensures var h, id := BeforeDrop(g, proposed, at, k), MissingIds(g.sched, proposed)[k];
      && Shape(h) && StandingOf(h, id) == StandingOf(Prepared(g, at), id) && Has(h.sched, id)
      && StandingOf(AfterPush(g, proposed, at), id) == StandingOf(Next(h, Drop(id, at)).0, id)
  {
    hide Shape, LoosensActive, MissingIds, StandingOf, Run, Next, Has;
    var ids, h := MissingIds(g.sched, proposed), BeforeDrop(g, proposed, at, k);
    ShapeGivesIds(g);
    PreparedKeepsSchedule(g, at);
    PushInStages(g, proposed, at);
    MissingIdsAre(g.sched, proposed);
    assert ids[k] in ids;
    DropsStandElsewhere(Prepared(g, at), ids[..k], at, ids[k]);
    DropsSplit(ids, at, k);
    RunOneMore(Prepared(g, at), Drops(ids[..k], at), Drop(ids[k], at), Drops(ids[k + 1..], at));
    StepKeepsShape(h, Drop(ids[k], at));
    DropsStandElsewhere(Next(h, Drop(ids[k], at)).0, ids[k + 1..], at, ids[k]);
    NotProposedAnywhere(proposed, ids[k]);
    PutsStandElsewhere(AfterDrops(g, proposed, at), proposed, at, ids[k]);
    StoredStands(g, Prepared(g, at), h, ids[k]);
  }

  lemma NotProposedAnywhere(proposed: seq<Event>, id: Uuid)
    requires !Has(proposed, id)
    ensures NoneNamed(proposed, id)
  {
    HasIff(proposed, id);
  }

  lemma StoredStands(g: Gate, p: Gate, h: Gate, id: Uuid)
    requires Has(g.sched, id) && p.sched == g.sched && StandingOf(h, id) == StandingOf(p, id)
    ensures Has(h.sched, id)
  {
    FindHas(g.sched, id);
    FindHas(h.sched, id);
  }

  // ---------------------------------------------------------------------------
  // What sealing and settling make of a record first
  // ---------------------------------------------------------------------------

  lemma PreparedTables(g: Gate, at: Moment)
    requires Shape(g)
    ensures Prepared(g, at).sched == g.sched && Prepared(g, at).pending == g.pending
    ensures Prepared(g, at).settle == SettleAll(SealAll(g.settle, g.sched, at.nowS), g.sched, at.nowS, g.settleWindowMin)
  {
    hide SealAll, SettleAll, Shape;
    var g1 := Next(g, Seal(at.nowS)).0;
    assert Preamble(at)[1..] == [SettleTick(at.nowS)] && [SettleTick(at.nowS)][1..] == [];
    assert Run(g1, [SettleTick(at.nowS)]) == Run(Next(g1, SettleTick(at.nowS)).0, []);
  }

  /** The event was edited less than a settle window ago, in minutes of elapsed time. */
  predicate StillOpen(g: Gate, id: Uuid, nowS: nat) {
    var r := RecordOf(g.settle, id);
    r.Some? && !r.value.hasBaseline && nowS - r.value.lastEditS < g.settleWindowMin * 60
  }

  lemma SealKeepsRecord(g: Gate, id: Uuid, nowS: nat)
    requires Shape(g)
    ensures var r := RecordOf(SealAll(g.settle, g.sched, nowS), id);
      && (RecordOf(g.settle, id).Some? ==> r == RecordOf(g.settle, id))
      && (RecordOf(g.settle, id) == None && r.Some? ==> r.value.hasBaseline && r.value.baseline in g.sched && r.value.baseline.id == id)
  {
    hide SealAll;
    SealAllShape(g.settle, g.sched, nowS);
    var t, r := g.settle, SealAll(g.settle, g.sched, nowS);
    var i, j := SettleIndex(t, id), SettleIndex(r, id);
    if i < |t| {
      assert r[i] == t[i];
      SlotIs(r, i);
    }
  }

  lemma SettleKeepsRecord(t: seq<Settle>, s: seq<Event>, nowS: nat, windowMin: U16, id: Uuid)
    requires SettleDistinct(t)
    ensures RecordOf(SettleAll(t, s, nowS, windowMin), id)
      == match RecordOf(t, id) case None => None case Some(st) => Some(SettleOne(st, s, nowS, windowMin))
  {
    hide SettleOne;
    var r := SettleAll(t, s, nowS, windowMin);
    SettleKeepsIds(t, s, nowS, windowMin);
    var i, j := SettleIndex(t, id), SettleIndex(r, id);
    assert i < |t| ==> r[i].inUse && r[i].eventId == id;
    assert j < |r| ==> t[j].inUse && t[j].eventId == id;
  }

  lemma SettleKeepsIds(t: seq<Settle>, s: seq<Event>, nowS: nat, windowMin: U16)
    ensures forall i :: 0 <= i < |t| ==>
      SettleAll(t, s, nowS, windowMin)[i].inUse == t[i].inUse && SettleAll(t, s, nowS, windowMin)[i].eventId == t[i].eventId
  {
  }

  /**
   A record when the decisions start: open while its settle window runs; after that, and for an event that
   had no record, settled in what is stored.
   */
  lemma PreparedRecord(g: Gate, at: Moment, id: Uuid)
    requires Shape(g) && Has(g.sched, id)
    ensures var r := RecordOf(Prepared(g, at).settle, id);
      && (StillOpen(g, id, at.nowS) ==> r == RecordOf(g.settle, id) && !r.value.hasBaseline)
      && (!StillOpen(g, id, at.nowS) && r.Some? ==> r.value.hasBaseline)
      && (BaselinesCurrent(g.sched, g.settle) && r.Some? && r.value.hasBaseline ==> Some(r.value.baseline) == Find(g.sched, id))
  {
    hide SealAll, SettleAll;
    PreparedTables(g, at);
    SealAllShape(g.settle, g.sched, at.nowS);
    SealKeepsRecord(g, id, at.nowS);
    SettleKeepsRecord(SealAll(g.settle, g.sched, at.nowS), g.sched, at.nowS, g.settleWindowMin, id);
    var sealed_ := RecordOf(SealAll(g.settle, g.sched, at.nowS), id);
    if RecordOf(g.settle, id) == None && sealed_.Some? {
      var k :| 0 <= k < |g.sched| && g.sched[k] == sealed_.value.baseline;
      FindIs(g.sched, k);
    }
    FindHas(g.sched, id);
  }

  // ---------------------------------------------------------------------------
  // The horizon, in starts
  // ---------------------------------------------------------------------------

  const DAY_S := 86400

  /** Not the event in force, and no start of it within 24 hours. */
  ghost predicate FarOff(e: Event, at: Moment) {
    && !(at.active.Some? && at.active.value.id == e.id)
    && forall t :: StartsAt(e, at.tz, t) && t > at.utc ==> t > at.utc + DAY_S
  }

  lemma HorizonIff(e: Event, at: Moment)
    requires e.startTime < 1440 && SearchFits(at.utc, at.tz)
    ensures BeyondHorizon(e, at) <==> FarOff(e, at)
  {
    hide SecondsUntilNextStart, StartsAt, SearchFits;
    NextStartIsLeast(e, at.utc, at.tz);
    var sec := StartDistance(e, at.utc, at.tz, 0);
  }

  // ---------------------------------------------------------------------------
  // Proposed events
  // ---------------------------------------------------------------------------

  /** The event is stored as proposed, and nothing waits for it. */
  ghost predicate StoredAsProposed(h: Gate, pe: Event) {
    Find(h.sched, pe.id) == Some(pe) && WaitingFor(h.pending, pe.id) == None
  }

  /** Stored version and waiting entry are what they were. */
  ghost predicate LeftAlone(g: Gate, h: Gate, id: Uuid) {
    Find(h.sched, id) == Find(g.sched, id) && WaitingFor(h.pending, id) == WaitingFor(g.pending, id)
  }

  /** The decision about one proposed event, seen from before and after the whole push. */
  lemma PutSeen(g: Gate, proposed: seq<Event>, at: Moment, i: nat)
    requires Shape(g) && DistinctIds(proposed) && !LoosensActive(proposed, at) && i < |proposed|
    ensures var pe, h := proposed[i], AfterPush(g, proposed, at);
      var stored, record := Find(g.sched, pe.id), RecordOf(Prepared(g, at).settle, pe.id);
      var before := BeforePut(g, proposed, at, i);
      if Comparison(stored, pe, at.tz) == NoChange then LeftAlone(g, h, pe.id)
      else if AppliesNow(Standing(stored, record, None), pe, at) then
        if Fits(before.sched, pe.id) then StoredAsProposed(h, pe) else LeftAlone(g, h, pe.id)
      else
        && Find(h.sched, pe.id) == stored
        && WaitingFor(h.pending, pe.id) == if HasRoom(before.pending, pe.id) then Some(LooseningTo(pe, at.nowS)) else None
  {
    hide Shape, LoosensActive, Run, Next, Comparison, FreeFor, BeyondHorizon, Fits, HasRoom, Find, RecordOf, WaitingFor,
      Prepared, AfterPush, BeforePut;
    PutInPush(g, proposed, at, i);
    PutDecides(BeforePut(g, proposed, at, i), proposed[i], at);
    PreparedTables(g, at);
  }

  /** A replacement that binds harder than the stored version is stored at once, and supersedes what waited. */
  lemma TighteningIsStored(g: Gate, proposed: seq<Event>, at: Moment, i: nat, stored: Event)
    requires Shape(g) && DistinctIds(proposed) && !LoosensActive(proposed, at) && i < |proposed|
    requires Find(g.sched, proposed[i].id) == Some(stored)
    requires BindsSometime(stored) && Recognised(stored, proposed[i])
    requires BindsAtLeast(stored, proposed[i], at.tz) && !BindsAtLeast(proposed[i], stored, at.tz)
    ensures StoredAsProposed(AfterPush(g, proposed, at), proposed[i])
  {
    hide Shape, LoosensActive, ClassifyModified, BindsAtLeast, FreeFor, BeyondHorizon, AfterPush, Prepared, Find, RecordOf,
      WaitingFor, HasRoom, BeforePut;
    PutSeen(g, proposed, at, i);
    InstantIff(stored, proposed[i], at.tz);
    StoredFits(g, proposed, at, i);
    NoChangeIsMutual(stored, proposed[i], at.tz);
    if IsInstant(ClassifyModified(proposed[i], stored, at.tz)) {
      InstantBindsAtLeast(proposed[i], stored, at.tz);
    }
  }

  lemma StoredFits(g: Gate, proposed: seq<Event>, at: Moment, i: nat)
    requires Shape(g) && DistinctIds(proposed) && !LoosensActive(proposed, at) && i < |proposed|
    requires Find(g.sched, proposed[i].id).Some?
    ensures Fits(BeforePut(g, proposed, at, i).sched, proposed[i].id)
  {
    hide Shape, LoosensActive, Run, Find, RecordOf, WaitingFor, Has, Prepared, BeforePut, AfterPush;
    PutInPush(g, proposed, at, i);
    PreparedTables(g, at);
    FindHas(BeforePut(g, proposed, at, i).sched, proposed[i].id);
  }

  /** A replacement as binding as the stored version, in both directions, changes nothing and cancels nothing. */
  lemma EquallyBindingIsLeft(g: Gate, proposed: seq<Event>, at: Moment, i: nat, stored: Event)
    requires Shape(g) && DistinctIds(proposed) && !LoosensActive(proposed, at) && i < |proposed|
    requires Find(g.sched, proposed[i].id) == Some(stored)
    requires BindsSometime(stored) && BindsSometime(proposed[i]) && Recognised(stored, proposed[i]) && Recognised(proposed[i], stored)
    requires BindsAtLeast(stored, proposed[i], at.tz) && BindsAtLeast(proposed[i], stored, at.tz)
    ensures LeftAlone(g, AfterPush(g, proposed, at), proposed[i].id)
  {
    hide Shape, LoosensActive, ClassifyModified, BindsAtLeast, FreeFor, BeyondHorizon, AfterPush, Prepared, Find, RecordOf,
      WaitingFor, HasRoom, BeforePut, Fits;
    PutSeen(g, proposed, at, i);
    NoChangeIffEquallyBinding(stored, proposed[i], at.tz);
  }

  /**
   A replacement that binds at least as hard ends up stored with nothing waiting, with one exception: pushed
   back as it stands, or in another form as binding, the stored version does not call off the loosening that
   waits for it.
   */
  lemma BindingReplacementIsStoredIff(g: Gate, proposed: seq<Event>, at: Moment, i: nat, stored: Event)
    requires Shape(g) && DistinctIds(proposed) && !LoosensActive(proposed, at) && i < |proposed|
    requires Find(g.sched, proposed[i].id) == Some(stored)
    requires BindsSometime(stored) && BindsSometime(proposed[i]) && Recognised(stored, proposed[i]) && Recognised(proposed[i], stored)
    requires BindsAtLeast(stored, proposed[i], at.tz)
    ensures StoredAsProposed(AfterPush(g, proposed, at), proposed[i]) <==>
      || !BindsAtLeast(proposed[i], stored, at.tz)
      || (proposed[i] == stored && WaitingFor(g.pending, stored.id) == None)
  {
    hide Shape, LoosensActive, BindsAtLeast, AfterPush, Find, WaitingFor, Recognised, BindsSometime;
    if BindsAtLeast(proposed[i], stored, at.tz) {
      EquallyBindingIsLeft(g, proposed, at, i, stored);
      FindHas(g.sched, proposed[i].id);
    } else {
      TighteningIsStored(g, proposed, at, i, stored);
    }
  }

  function Morning(): Event {
    EmptyEvent().(startTime := 420, endTime := 540, recurrence := RECUR_DAILY)
  }

  function ShorterMorning(): Event {
    Morning().(endTime := 480)
  }

  /** A daily 07:00-09:00 commitment, and its shortening to 08:00 waiting in the queue since the first second. */
  function ShorteningWaits(): Gate {
    var g := Watch.Factory();
    g.(sched := [Morning()], pending := g.pending[0 := LooseningTo(ShorterMorning(), 0)])
  }

  /** An hour later, nothing in force: the stored version is pushed back, and the shortening still waits. */
  lemma PushedBackStillLoosens()
    ensures var g, at := ShorteningWaits(), Moment(3600, None, 0, 0);
      && Shape(g) && DistinctIds([Morning()]) && !LoosensActive([Morning()], at)
      && Find(g.sched, Morning().id) == Some(Morning()) && BindsAtLeast(Morning(), Morning(), 0)
      && WaitingFor(AfterPush(g, [Morning()], at).pending, Morning().id) == Some(LooseningTo(ShorterMorning(), 0))
      && !StoredAsProposed(AfterPush(g, [Morning()], at), Morning())
  {
    hide AfterPush, BindsAtLeast, WaitingFor, LeftAlone;
    var g, at := ShorteningWaits(), Moment(3600, None, 0, 0);
    ShorteningIsShaped();
    ReflexivelyBinding(Morning(), 0);
    EquallyBindingIsLeft(g, [Morning()], at, 0, Morning());
    LeftWaiting(g, AfterPush(g, [Morning()], at), Morning().id);
  }

  lemma LeftWaiting(g: Gate, h: Gate, id: Uuid)
    requires LeftAlone(g, h, id)
    ensures WaitingFor(h.pending, id) == WaitingFor(g.pending, id)
  {
  }

  lemma ShorteningIsShaped()
    ensures Shape(ShorteningWaits())
    ensures WaitingFor(ShorteningWaits().pending, Morning().id) == Some(LooseningTo(ShorterMorning(), 0))
  {
    var q := ShorteningWaits().pending;
    WaitingIs(q, 0);
  }

  lemma ReflexivelyBinding(e: Event, tz: int)
    ensures BindsAtLeast(e, e, tz)
  {
  }

  /** A stored event whose settle window is still running takes any replacement at once. */
  lemma OpenEventIsStored(g: Gate, proposed: seq<Event>, at: Moment, i: nat, stored: Event)
    requires Shape(g) && DistinctIds(proposed) && !LoosensActive(proposed, at) && i < |proposed|
    requires Find(g.sched, proposed[i].id) == Some(stored) && StillOpen(g, proposed[i].id, at.nowS)
    ensures StoredAsProposed(AfterPush(g, proposed, at), proposed[i])
         || (ClassifyModified(stored, proposed[i], at.tz) == NoChange && LeftAlone(g, AfterPush(g, proposed, at), proposed[i].id))
  {
    hide Shape, LoosensActive, ClassifyModified, BeyondHorizon, AfterPush, Prepared, Find, RecordOf,
      WaitingFor, HasRoom, BeforePut, StillOpen;
    PutSeen(g, proposed, at, i);
    StoredFits(g, proposed, at, i);
    FindHas(g.sched, proposed[i].id);
    PreparedRecord(g, at, proposed[i].id);
  }

  /** A replacement with no start within 24 hours is stored at once. */
  lemma FarReplacementIsStored(g: Gate, proposed: seq<Event>, at: Moment, i: nat, stored: Event)
    requires Shape(g) && DistinctIds(proposed) && !LoosensActive(proposed, at) && i < |proposed|
    requires Find(g.sched, proposed[i].id) == Some(stored)
    requires proposed[i].startTime < 1440 && SearchFits(at.utc, at.tz) && FarOff(proposed[i], at)
    ensures StoredAsProposed(AfterPush(g, proposed, at), proposed[i])
         || (ClassifyModified(stored, proposed[i], at.tz) == NoChange && LeftAlone(g, AfterPush(g, proposed, at), proposed[i].id))
  {
    hide Shape, LoosensActive, ClassifyModified, BeyondHorizon, FarOff, FreeFor, AfterPush, Prepared, Find, RecordOf,
      WaitingFor, HasRoom, BeforePut, SearchFits;
    PutSeen(g, proposed, at, i);
    StoredFits(g, proposed, at, i);
    HorizonIff(proposed[i], at);
  }

  /** A new event is stored at once, if it fits; a cancellation too, where baselines are current. */
  lemma NewEventIsStored(g: Gate, proposed: seq<Event>, at: Moment, i: nat)
    requires Shape(g) && DistinctIds(proposed) && !LoosensActive(proposed, at) && i < |proposed|
    requires !Has(g.sched, proposed[i].id)
    requires !proposed[i].negate || BaselinesCurrent(g.sched, g.settle)
    requires Fits(BeforePut(g, proposed, at, i).sched, proposed[i].id)
    ensures StoredAsProposed(AfterPush(g, proposed, at), proposed[i])
  {
    hide Shape, LoosensActive, ClassifyModified, BeyondHorizon, AfterPush, Prepared, Find, RecordOf,
      WaitingFor, HasRoom, BeforePut, Fits, BaselinesCurrent;
    PutSeen(g, proposed, at, i);
    FindHas(g.sched, proposed[i].id);
    if proposed[i].negate {
      UnstoredHasNoBaseline(g, at, proposed[i].id);
    }
  }

  lemma UnstoredHasNoBaseline(g: Gate, at: Moment, id: Uuid)
    requires Sound(g) && !Has(g.sched, id)
    ensures var r := RecordOf(Prepared(g, at).settle, id); r.Some? ==> !r.value.hasBaseline
  {
    hide SealAll, SettleAll, Prepared;
    PreparedTables(g, at);
    SealAllShape(g.settle, g.sched, at.nowS);
    SealKeepsRecord(g, id, at.nowS);
    SettleKeepsRecord(SealAll(g.settle, g.sched, at.nowS), g.sched, at.nowS, g.settleWindowMin, id);
    FindHas(g.sched, id);
    HasIff(g.sched, id);
  }

  /**
   A settled event, and a replacement that does not bind as hard and is near or of the event in force: the
   stored version stays, and the replacement waits in the queue for 24 hours, if there is a slot.
   */
  lemma LooseningIsHeld(g: Gate, proposed: seq<Event>, at: Moment, i: nat, stored: Event)
    requires Sound(g) && DistinctIds(proposed) && !LoosensActive(proposed, at) && i < |proposed|
    requires Find(g.sched, proposed[i].id) == Some(stored)
    requires RecordOf(Prepared(g, at).settle, proposed[i].id).Some? && !StillOpen(g, proposed[i].id, at.nowS)
    requires !BindsAtLeast(stored, proposed[i], at.tz)
    requires proposed[i].startTime < 1440 && SearchFits(at.utc, at.tz) && !FarOff(proposed[i], at)
    ensures var h, pe := AfterPush(g, proposed, at), proposed[i];
      && Find(h.sched, pe.id) == Some(stored)
      && WaitingFor(h.pending, pe.id)
        == if HasRoom(BeforePut(g, proposed, at, i).pending, pe.id) then Some(LooseningTo(pe, at.nowS)) else None
  {
    hide Shape, BaselinesCurrent, LoosensActive, ClassifyModified, BindsAtLeast, BeyondHorizon, FarOff, AfterPush, Prepared,
      Find, RecordOf, WaitingFor, HasRoom, BeforePut, SearchFits, StillOpen, Fits;
    var pe := proposed[i];
    PutSeen(g, proposed, at, i);
    HorizonIff(pe, at);
    FindHas(g.sched, pe.id);
    PreparedRecord(g, at, pe.id);
    if IsInstant(ClassifyModified(stored, pe, at.tz)) {
      InstantBindsAtLeast(stored, pe, at.tz);
    }
  }

  /** The record a settled event needs: every stored event has one, unless all were taken when the push came. */
  lemma PreparedHasRecord(g: Gate, at: Moment, id: Uuid)
    requires Shape(g) && Has(g.sched, id)
    ensures RecordOf(g.settle, id).Some? ==> RecordOf(Prepared(g, at).settle, id).Some?
    ensures RecordOf(Prepared(g, at).settle, id) == None ==> FreeSettle(Prepared(g, at).settle) == |Prepared(g, at).settle|
  {
    hide SealAll, SettleAll, Prepared;
    PreparedTables(g, at);
    SealAllShape(g.settle, g.sched, at.nowS);
    SealKeepsRecord(g, id, at.nowS);
    SettleKeepsRecord(SealAll(g.settle, g.sched, at.nowS), g.sched, at.nowS, g.settleWindowMin, id);
    FindHas(g.sched, id);
    HasIff(g.sched, id);
  }

  // ---------------------------------------------------------------------------
  // Missing events
  // ---------------------------------------------------------------------------

  lemma DropSeen(g: Gate, proposed: seq<Event>, at: Moment, k: nat, stored: Event)
    requires Shape(g) && !LoosensActive(proposed, at) && k < |MissingIds(g.sched, proposed)|
    requires Find(g.sched, MissingIds(g.sched, proposed)[k]) == Some(stored)
    ensures var h, id := AfterPush(g, proposed, at), MissingIds(g.sched, proposed)[k];
      if BeyondHorizon(stored, at) then Find(h.sched, id) == None && WaitingFor(h.pending, id) == None
      else
        && Find(h.sched, id) == Some(stored)
        && WaitingFor(h.pending, id)
          == if HasRoom(BeforeDrop(g, proposed, at, k).pending, id) then Some(DeletionOf(id, at.nowS)) else None
  {
    hide Shape, LoosensActive, Run, Next, BeyondHorizon, HasRoom, Find, RecordOf, WaitingFor, Prepared, AfterPush, BeforeDrop,
      MissingIds;
    DropInPush(g, proposed, at, k);
    DropDecides(BeforeDrop(g, proposed, at, k), MissingIds(g.sched, proposed)[k], at);
    PreparedTables(g, at);
  }

  /** A stored event left out of the proposal and with no start within 24 hours is gone; any other waits to go. */
  lemma MissingEventGoesOrWaits(g: Gate, proposed: seq<Event>, at: Moment, stored: Event) returns (k: nat)
    requires Shape(g) && !LoosensActive(proposed, at)
    requires Find(g.sched, stored.id) == Some(stored) && !Has(proposed, stored.id)
    requires stored.startTime < 1440 && SearchFits(at.utc, at.tz)
    ensures k < |MissingIds(g.sched, proposed)| && MissingIds(g.sched, proposed)[k] == stored.id
    ensures var h := AfterPush(g, proposed, at);
      if FarOff(stored, at) then Find(h.sched, stored.id) == None && WaitingFor(h.pending, stored.id) == None
      else
        && Find(h.sched, stored.id) == Some(stored)
        && WaitingFor(h.pending, stored.id)
          == if HasRoom(BeforeDrop(g, proposed, at, k).pending, stored.id) then Some(DeletionOf(stored.id, at.nowS)) else None
  {
    hide Shape, LoosensActive, BeyondHorizon, FarOff, HasRoom, Find, WaitingFor, AfterPush, BeforeDrop, SearchFits, Has, MissingIds;
    ShapeGivesIds(g);
    FindHas(g.sched, stored.id);
    MissingIdsAre(g.sched, proposed);
    k :| 0 <= k < |MissingIds(g.sched, proposed)| && MissingIds(g.sched, proposed)[k] == stored.id;
    DropSeen(g, proposed, at, k, stored);
    HorizonIff(stored, at);
  }

  // ---------------------------------------------------------------------------
  // The refusal
  // ---------------------------------------------------------------------------

  /** A push is refused exactly when it deletes the event in force or replaces it with one that does not bind as hard. */
  lemma RefusedIff(proposed: seq<Event>, at: Moment)
    requires at.active.Some? ==> BindsSometime(at.active.value)
    ensures LoosensActive(proposed, at) <==>
      && at.active.Some?
      && var next := Find(proposed, at.active.value.id);
         next == None || !(BindsAtLeast(at.active.value, next.value, at.tz) && Recognised(at.active.value, next.value))
  {
    hide ClassifyModified, BindsAtLeast, Find;
    if at.active.Some? {
      var next := Find(proposed, at.active.value.id);
      if next.Some? {
        InstantIff(at.active.value, next.value, at.tz);
      }
    }
  }

  /** A refused push stores, queues and cancels nothing, and says so. */
  lemma RefusedTouchesNothing(g: Gate, proposed: seq<Event>, at: Moment)
    requires Shape(g) && LoosensActive(proposed, at)
    ensures AfterPush(g, proposed, at).sched == g.sched && AfterPush(g, proposed, at).pending == g.pending
    ensures Verdict(PushReport(g, proposed, at)) == END_REJECTED
  {
    hide Shape, LoosensActive, Run;
    PreparedTables(g, at);
    assert PushSteps(g, proposed, at) == Preamble(at);
  }

  // ---------------------------------------------------------------------------
  // When everything fits
  // ---------------------------------------------------------------------------

  function IdsOf(s: seq<Event>): set<Uuid> {
    set i | 0 <= i < |s| :: s[i].id
  }

  lemma {:induction false} AsManyIds(s: seq<Event>)
    requires DistinctIds(s)
    ensures |IdsOf(s)| == |s|
  {
    if s != [] {
      AsManyIds(s[..|s| - 1]);
      LastId(s);
    }
  }

  lemma LastId(s: seq<Event>)
    requires DistinctIds(s) && s != []
    ensures var last := s[|s| - 1].id; last !in IdsOf(s[..|s| - 1]) && IdsOf(s) == IdsOf(s[..|s| - 1]) + {last}
  {
    var front := s[..|s| - 1];
    forall id
      ensures id in IdsOf(s) <==> id in IdsOf(front) || id == s[|s| - 1].id
    {
      if id in IdsOf(s) {
        var i :| 0 <= i < |s| && s[i].id == id;
        assert i < |front| ==> front[i].id == id;
      }
      if id in IdsOf(front) {
        var i :| 0 <= i < |front| && front[i].id == id;
        assert s[i].id == id;
      }
    }
  }

  lemma HasIsId(s: seq<Event>, id: Uuid)
    ensures Has(s, id) <==> id in IdsOf(s)
  {
    hide Has;
    HasIff(s, id);
  }

  lemma SubsetIsSmaller<T>(a: set<T>, b: set<T>)
    requires a <= b
    ensures |a| <= |b|
  {
    assert b == a + (b - a);
  }

  /** An id in the table at a decision was stored before the push, or is proposed. */
  lemma BeforePutKnows(g: Gate, proposed: seq<Event>, at: Moment, i: nat, id: Uuid)
    requires Shape(g) && i <= |proposed| && Has(BeforePut(g, proposed, at, i).sched, id)
    ensures Has(g.sched, id) || Has(proposed, id)
  {
    hide Shape, MissingIds, RecordOf, WaitingFor, Find, Run, Next, Has, Prepared;
    if !Has(proposed, id) && !Has(g.sched, id) {
      ShapeGivesIds(g);
      PreparedKeepsSchedule(g, at);
      MissingIdsAre(g.sched, proposed);
      NotProposedAnywhere(proposed, id);
      assert NoneNamed(proposed[..i], id);
      DropsStandElsewhere(Prepared(g, at), MissingIds(g.sched, proposed), at, id);
      PutsStandElsewhere(AfterDrops(g, proposed, at), proposed[..i], at, id);
      FindHas(g.sched, id);
      FindHas(BeforePut(g, proposed, at, i).sched, id);
    }
  }

  /** If stored and proposed ids together fit the table, every proposed event fits when its turn comes. */
  lemma AllFit(g: Gate, proposed: seq<Event>, at: Moment, i: nat)
    requires Shape(g) && DistinctIds(proposed) && i < |proposed|
    requires |IdsOf(g.sched) + IdsOf(proposed)| <= MAX_EVENTS
    ensures Fits(BeforePut(g, proposed, at, i).sched, proposed[i].id)
  {
    hide Shape, MissingIds, StandingOf, Run, Next, Has, BeforePut;
    var h, all := BeforePut(g, proposed, at, i).sched, IdsOf(g.sched) + IdsOf(proposed);
    BeforePutStands(g, proposed, at, i);
    ShapeGivesIds(BeforePut(g, proposed, at, i));
    if !Has(h, proposed[i].id) {
      forall id | id in IdsOf(h)
        ensures id in all && id != proposed[i].id
      {
        HasIsId(h, id);
        BeforePutKnows(g, proposed, at, i, id);
        HasIsId(g.sched, id);
        HasIsId(proposed, id);
      }
      assert proposed[i].id in IdsOf(proposed);
      AsManyIds(h);
      SubsetIsSmaller(IdsOf(h) + {proposed[i].id}, all);
    }
  }

  /** Slots in use. */
  function InUse(q: seq<Pending>): nat {
    if q == [] then 0 else InUse(q[..|q| - 1]) + (if q[|q| - 1].inUse then 1 else 0)
  }

  lemma {:induction false} RoomIff(q: seq<Pending>)
    ensures FreePending(q) < |q| <==> InUse(q) < |q|
    ensures InUse(q) <= |q|
  {
    if q != [] {
      var n := |q| - 1;
      RoomIff(q[..n]);
      var i, j := FreePending(q), FreePending(q[..n]);
      assert j < n ==> !q[j].inUse;
    }
  }

  lemma {:induction false} CancelFrees(q: seq<Pending>, id: Uuid)
    ensures InUse(CancelFor(q, id)) <= InUse(q)
  {
    if q != [] {
      var n := |q| - 1;
      CancelFrees(q[..n], id);
      assert CancelFor(q, id)[..n] == CancelFor(q[..n], id);
    }
  }

  lemma {:induction false} PlacingUsesOne(q: seq<Pending>, i: nat, p: Pending)
    requires i < |q|
    ensures InUse(q[i := p]) <= InUse(q) + 1
  {
    var n := |q| - 1;
    if i < n {
      PlacingUsesOne(q[..n], i, p);
      assert q[i := p][..n] == q[..n][i := p];
    } else {
      assert q[i := p][..n] == q[..n];
    }
  }

  lemma DecisionUsesOne(g: Gate, step: Step)
    requires Decides(step)
    ensures InUse(Next(g, step).0.pending) <= InUse(g.pending) + 1
  {
    hide InUse, CancelFor, BeyondHorizon, ChangeOf, MayApplyNow, NoteEdit, Upserted, Deleted, Has;
    var id := if step.Drop? then step.id else step.event.id;
    CancelFrees(g.pending, id);
    var q := CancelFor(g.pending, id);
    if FreePending(q) < |q| {
      PlacingUsesOne(q, FreePending(q), if step.Drop? then DeletionOf(id, step.at.nowS) else LooseningTo(step.event, step.at.nowS));
    }
  }

  lemma {:induction false} DecisionsUseSlots(g: Gate, steps: seq<Step>)
    requires forall i :: 0 <= i < |steps| ==> Decides(steps[i])
    ensures InUse(Run(g, steps).pending) <= InUse(g.pending) + |steps|
    decreases |steps|
  {
    hide Next, InUse;
    if steps != [] {
      DecisionUsesOne(g, steps[0]);
      DecisionsUseSlots(Next(g, steps[0]).0, steps[1..]);
    }
  }

  lemma RoomFor16(q: seq<Pending>, id: Uuid)
    requires |q| == PENDING_QUEUE_MAX && InUse(q) < PENDING_QUEUE_MAX
    ensures HasRoom(q, id)
  {
    hide InUse, CancelFor;
    CancelFrees(q, id);
    RoomIff(CancelFor(q, id));
  }

  /** With a slot for every decision of the push, whatever has to wait finds one. */
  lemma EverythingHasRoom(g: Gate, proposed: seq<Event>, at: Moment, i: nat)
    requires Shape(g) && i <= |proposed|
    requires InUse(g.pending) + |MissingIds(g.sched, proposed)| + i < PENDING_QUEUE_MAX
    ensures forall id :: HasRoom(BeforePut(g, proposed, at, i).pending, id)
  {
    hide Shape, InUse, MissingIds, Run, HasRoom, Prepared;
    var ids := MissingIds(g.sched, proposed);
    PreparedTables(g, at);
    ShapeGivesQueue(g);
    DecisionsUseSlots(Prepared(g, at), Drops(ids, at));
    RunKeepsQueueLength(Prepared(g, at), Drops(ids, at));
    DecisionsUseSlots(AfterDrops(g, proposed, at), Puts(proposed[..i], at));
    RunKeepsQueueLength(AfterDrops(g, proposed, at), Puts(proposed[..i], at));
    forall id
      ensures HasRoom(BeforePut(g, proposed, at, i).pending, id)
    {
      RoomFor16(BeforePut(g, proposed, at, i).pending, id);
    }
  }

  /** The same of the missing events. */
  lemma EveryDeletionHasRoom(g: Gate, proposed: seq<Event>, at: Moment, k: nat)
    requires Shape(g) && k <= |MissingIds(g.sched, proposed)|
    requires InUse(g.pending) + k < PENDING_QUEUE_MAX
    ensures forall id :: HasRoom(BeforeDrop(g, proposed, at, k).pending, id)
  {
    hide Shape, InUse, MissingIds, Run, HasRoom, Prepared;
    var ids := MissingIds(g.sched, proposed)[..k];
    PreparedTables(g, at);
    ShapeGivesQueue(g);
    DecisionsUseSlots(Prepared(g, at), Drops(ids, at));
    RunKeepsQueueLength(Prepared(g, at), Drops(ids, at));
    forall id
      ensures HasRoom(BeforeDrop(g, proposed, at, k).pending, id)
    {
      RoomFor16(BeforeDrop(g, proposed, at, k).pending, id);
    }
  }

  lemma ShapeGivesQueue(g: Gate)
    requires Shape(g)
    ensures |g.pending| == PENDING_QUEUE_MAX
  {
  }
}
