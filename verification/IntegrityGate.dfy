/**
 The gate as the firmware runs it: fixed tables updated in place through loops. Every method is proved
 to do to those tables what the functions of module Integrity say.
 */
module IntegrityGate {
  import opened Machine
  import opened Events
  import opened NextStart
  import opened Classify
  import opened Integrity
  import opened IntegrityInvariants
  import opened Commitment
  import opened PushEffects

  class IntegrityState {
    var settleWindowMin: U16
    var passAllowance: U8
    var passSpendCount: nat
    const passSpendElapsedS: array<nat>
    const settle: array<Settle>
    const pending: array<Pending>

    ghost predicate Valid()
      reads this
    {
      && passSpendElapsedS.Length == PASS_SLOTS && passSpendCount <= PASS_SLOTS
      && settle.Length == MAX_EVENTS
      && pending.Length == PENDING_QUEUE_MAX
    }

    ghost function With(s: Schedule): Gate
      requires Valid() && s.Valid()
      reads this, passSpendElapsedS, settle, pending, s, s.events
    {
      Gate(s.Contents(), settle[..], pending[..], settleWindowMin, passSpendElapsedS[..passSpendCount], passAllowance)
    }

    /** impulse_integrity_init. */
    constructor ()
      ensures Valid()
      ensures fresh(passSpendElapsedS) && fresh(settle) && fresh(pending)
      ensures settleWindowMin == SETTLE_WINDOW_DEFAULT_MIN && passAllowance == PASS_BUDGET_DEFAULT && passSpendCount == 0
      ensures forall i :: 0 <= i < MAX_EVENTS ==> !settle[i].inUse
      ensures forall i :: 0 <= i < PENDING_QUEUE_MAX ==> !pending[i].inUse
    {
      settleWindowMin, passAllowance, passSpendCount := SETTLE_WINDOW_DEFAULT_MIN, PASS_BUDGET_DEFAULT, 0;
      passSpendElapsedS := new nat[PASS_SLOTS](_ => 0);
      settle := new Settle[MAX_EVENTS](_ => Settle(false, ZeroUuid(), 0, false, EmptyEvent()));
      pending := new Pending[PENDING_QUEUE_MAX](_ => Pending(false, PendingUpsert, ZeroUuid(), 0, EmptyEvent()));
    }

    // -------------------------------------------------------------------------
    // Settle records
    // -------------------------------------------------------------------------

    /** settle_for without creation; also the first free record, found in the same scan. */
    method FindSettle(id: Uuid) returns (slot: nat, free: nat)
      requires Valid()
      ensures slot == SettleIndex(settle[..], id)
      ensures slot == settle.Length ==> free == FreeSettle(settle[..])
    {
      slot, free := 0, settle.Length;
      ghost var t := settle[..];
      while slot < settle.Length
        invariant 0 <= slot <= settle.Length
        invariant t == settle[..]
        invariant SettleIndex(t, id) == slot + SettleIndex(t[slot..], id)
        invariant if free == settle.Length then FreeSettle(t) == slot + FreeSettle(t[slot..]) else free == FreeSettle(t)
      {
        assert t[slot..][1..] == t[slot + 1..];
        if settle[slot].inUse && settle[slot].eventId == id {
          return;
        }
        if !settle[slot].inUse && free == settle.Length {
          free := slot;
        }
        slot := slot + 1;
      }
    }

    method NoteEdited(id: Uuid, nowS: nat)
      requires Valid()
      modifies settle
      ensures settle[..] == NoteEdit(old(settle[..]), id, nowS)
    {
      var slot, free := FindSettle(id);
      if slot < settle.Length {
        settle[slot] := settle[slot].(lastEditS := nowS, hasBaseline := false);
      } else if free < settle.Length {
        settle[free] := Settle(true, id, nowS, false, EmptyEvent());
      }
    }

    /** settle_tick. */
    method Tick(s: Schedule, nowS: nat)
      requires Valid() && s.Valid()
      modifies settle
      ensures settle[..] == SettleAll(old(settle[..]), s.Contents(), nowS, settleWindowMin)
    {
      hide SettleOne;
      ghost var t := settle[..];
      var i := 0;
      while i < settle.Length
        invariant 0 <= i <= settle.Length
        invariant forall k :: 0 <= k < i ==> settle[k] == SettleOne(t[k], s.Contents(), nowS, settleWindowMin)
        invariant forall k :: i <= k < settle.Length ==> settle[k] == t[k]
      {
        settle[i] := SettleRecord(s, settle[i], nowS);
        i := i + 1;
      }
    }

    method SettleRecord(s: Schedule, st: Settle, nowS: nat) returns (r: Settle)
      requires Valid() && s.Valid()
      ensures r == SettleOne(st, s.Contents(), nowS, settleWindowMin)
    {
      var windowS := settleWindowMin * 60;
      if st.inUse && !st.hasBaseline && nowS >= st.lastEditS + windowS {
        var k := s.FindIndex(st.eventId);
        if k < s.count {
          return st.(hasBaseline := true, baseline := s.events[k]);
        }
      }
      return st;
    }

    /** seal_unknown_events. */
    method SealUnknown(s: Schedule, nowS: nat)
      requires Valid() && s.Valid()
      modifies settle
      ensures settle[..] == SealAll(old(settle[..]), s.Contents(), nowS)
    {
      var i := 0;
      while i < s.count
        invariant 0 <= i <= s.count
        invariant SealAll(old(settle[..]), s.Contents(), nowS) == SealAll(settle[..], s.Contents()[i..], nowS)
      {
        ghost var t := settle[..];
        var e := s.events[i];
        assert s.Contents()[i..][0] == e && s.Contents()[i..][1..] == s.Contents()[i + 1..];
        var slot, free := FindSettle(e.id);
        if slot == settle.Length && free < settle.Length {
          settle[free] := Settle(true, e.id, nowS, true, e);
        }
        assert settle[..] == SealOne(t, e, nowS);
        i := i + 1;
      }
    }

    // -------------------------------------------------------------------------
    // The queue
    // -------------------------------------------------------------------------

    method CancelPending(id: Uuid)
      requires Valid()
      modifies pending
      ensures pending[..] == CancelFor(old(pending[..]), id)
    {
      var i := 0;
      while i < pending.Length
        invariant 0 <= i <= pending.Length
        invariant forall k :: 0 <= k < i ==> pending[k] == CancelFor(old(pending[..]), id)[k]
        invariant forall k :: i <= k < pending.Length ==> pending[k] == old(pending[..])[k]
      {
        if pending[i].inUse && pending[i].targetId == id {
          pending[i] := pending[i].(inUse := false);
        }
        i := i + 1;
      }
    }

    method QueuePush(p: Pending) returns (ok: bool)
      requires Valid()
      modifies pending
      ensures var q, free := old(pending[..]), FreePending(old(pending[..]));
        && ok == (free < |q|)
        && pending[..] == if ok then q[free := p.(inUse := true)] else q
    {
      var i := 0;
      ghost var q := pending[..];
      while i < pending.Length
        invariant 0 <= i <= pending.Length
        invariant pending[..] == q
        invariant FreePending(q) == i + FreePending(q[i..])
      {
        assert q[i..][1..] == q[i + 1..];
        if !pending[i].inUse {
          pending[i] := p.(inUse := true);
          return true;
        }
        i := i + 1;
      }
      return false;
    }

    /** Cancel what was queued for this event, then queue the new loosening. */
    method Hold(s: Schedule, p: Pending) returns (queued: bool)
      requires Valid() && s.Valid()
      modifies pending
      ensures With(s) == Quarantine(old(With(s)), p).0
      ensures Quarantine(old(With(s)), p).1 == if queued then Queued else LostQueueFull
    {
      CancelPending(p.targetId);
      queued := QueuePush(p);
    }

    // -------------------------------------------------------------------------
    // The rules
    // -------------------------------------------------------------------------

    method FreeEdit(proposed: Event, tz: int) returns (free: bool)
      requires Valid()
      ensures free <==> WithinFreeEdit(settle[..], proposed, tz)
    {
      var slot, _ := FindSettle(proposed.id);
      if slot == settle.Length || !settle[slot].hasBaseline {
        return true;
      }
      var c := ClassifyModifiedLoop(settle[slot].baseline, proposed, tz);
      return IsInstant(c);
    }
  }

  method PastHorizon(e: Event, at: Moment) returns (past: bool)
    ensures past <==> BeyondHorizon(e, at)
  {
    hide SecondsUntilNextStart;
    if at.active.Some? && at.active.value.id == e.id {
      return false;
    }
    var secs := SecondsUntilNextStartLoop(e, at.utc, at.tz);
    return secs > LOOSEN_FREE_HORIZON_S;
  }

  method SchedUpsert(s: Schedule, e: Event) returns (ok: bool)
    requires s.Valid()
    modifies s, s.events
    ensures s.Valid() && s.Contents() == Upserted(old(s.Contents()), e)
    ensures ok <==> Fits(old(s.Contents()), e.id)
    ensures !ok ==> s.Contents() == old(s.Contents())
  {
    var i := s.FindIndex(e.id);
    if i < s.count {
      s.events[i] := e;
      return true;
    }
    if s.count >= MAX_EVENTS {
      return false;
    }
    s.events[s.count] := e;
    s.count := s.count + 1;
    return true;
  }

  /** Move everything after index `i` one place left. */
  method CloseGap<T>(a: array<T>, i: nat, n: nat)
    requires i < n <= a.Length
    modifies a
    ensures a[..n - 1] == old(a[..i]) + old(a[i + 1..n])
  {
    ghost var was := a[..];
    var j := i + 1;
    while j < n
      invariant i + 1 <= j <= n
      invariant forall k :: 0 <= k < i ==> a[k] == was[k]
      invariant forall k :: i <= k < j - 1 ==> a[k] == was[k + 1]
      invariant forall k :: j <= k < n ==> a[k] == was[k]
    {
      a[j - 1] := a[j];
      j := j + 1;
    }
    assert a[..n - 1] == was[..i] + was[i + 1..n];
  }

  method SchedDelete(s: Schedule, id: Uuid)
    requires s.Valid()
    modifies s, s.events
    ensures s.Valid() && s.Contents() == Deleted(old(s.Contents()), id)
  {
    var i := s.FindIndex(id);
    if i < s.count {
      ghost var was := s.Contents();
      assert was[..i] == s.events[..i] && was[i + 1..] == s.events[i + 1..s.count];
      CloseGap(s.events, i, s.count);
      s.count := s.count - 1;
    }
  }

  // ---------------------------------------------------------------------------
  // Runs, step by step
  // ---------------------------------------------------------------------------

  lemma RunOne(g: Gate, step: Step, rest: seq<Step>)
    ensures Run(g, [step] + rest) == Run(Next(g, step).0, rest)
    ensures Outcomes(g, [step] + rest) == [Next(g, step).1] + Outcomes(Next(g, step).0, rest)
  {
    hide Next;
    assert ([step] + rest)[1..] == rest;
  }

  lemma CountOne(o: Outcome, os: seq<Outcome>, what: Outcome)
    ensures Count([o] + os, what) == (if o == what then 1 else 0) + Count(os, what)
  {
    assert ([o] + os)[1..] == os;
  }

  function Tally(r: Report, o: Outcome): Report {
    match o
    case Applied => r.(applied := r.applied + 1)
    case Queued => r.(quarantined := r.quarantined + 1)
    case LostQueueFull => r.(droppedQueueFull := r.droppedQueueFull + 1)
    case NoEffect => r
  }

  /** A report plus what is still to come. */
  ghost function Total(r: Report, os: seq<Outcome>): Report {
    Report(r.applied + Count(os, Applied), r.quarantined + Count(os, Queued),
           r.droppedQueueFull + Count(os, LostQueueFull), r.rejectedActiveEvent)
  }

  lemma TotalOne(r: Report, o: Outcome, os: seq<Outcome>)
    ensures Total(r, [o] + os) == Total(Tally(r, o), os)
  {
    CountOne(o, os, Applied);
    CountOne(o, os, Queued);
    CountOne(o, os, LostQueueFull);
  }

  lemma DeleteKeepsFront(s: seq<Event>, i: nat)
    requires DistinctIds(s) && i < |s|
    ensures |Deleted(s, s[i].id)| == |s| - 1 && Deleted(s, s[i].id)[..i] == s[..i]
  {
    FindIs(s, i);
  }

  /** One missing event: the body of the deletion loop. */
  method DropOne(ig: IntegrityState, s: Schedule, i: nat, at: Moment) returns (o: Outcome)
    requires ig.Valid() && s.Valid() && DistinctIds(s.Contents()) && i < s.count
    modifies s, s.events, ig.settle, ig.pending
    ensures ig.Valid() && s.Valid()
    ensures (ig.With(s), o) == Next(old(ig.With(s)), Drop(old(s.events[i].id), at))
    ensures i <= s.count && s.Contents()[..i] == old(s.Contents())[..i]
  {
    hide BeyondHorizon, NoteEdit, CancelFor, Quarantine, Deleted;
    var cur := s.events[i];
    FindIs(s.Contents(), i);
    DeleteKeepsFront(s.Contents(), i);
    var far := PastHorizon(cur, at);
    if far {
      SchedDelete(s, cur.id);
      ig.NoteEdited(cur.id, at.nowS);
      ig.CancelPending(cur.id);
      return Applied;
    }
    ghost var p := Pending(true, PendingDelete, cur.id, at.nowS + LOOSEN_DELAY_S, EmptyEvent());
    QuarantineTouchesOnlyTheQueue(ig.With(s), p);
    var queued := ig.Hold(s, Pending(true, PendingDelete, cur.id, at.nowS + LOOSEN_DELAY_S, EmptyEvent()));
    return if queued then Queued else LostQueueFull;
  }

  /** How the stored schedule compares with one proposed event. */
  method Compare(s: Schedule, pe: Event, tz: int) returns (c: Change)
    requires s.Valid()
    ensures c == ChangeOf(s.Contents(), pe, tz)
  {
    hide ClassifyModified;
    var k := s.FindIndex(pe.id);
    if k == s.count {
      return ClassifyAdded(pe);
    }
    c := ClassifyModifiedLoop(s.events[k], pe, tz);
  }

  /** The three ways a change may apply at once. */
  method AllowedNow(ig: IntegrityState, s: Schedule, pe: Event, c: Change, at: Moment) returns (instant: bool)
    requires ig.Valid() && s.Valid() && c == ChangeOf(s.Contents(), pe, at.tz)
    ensures instant <==> MayApplyNow(ig.With(s), pe, at)
  {
    hide BeyondHorizon, ChangeOf, WithinFreeEdit;
    instant := IsInstant(c);
    if !instant {
      instant := ig.FreeEdit(pe, at.tz);
    }
    if !instant {
      instant := PastHorizon(pe, at);
    }
  }

  /** A change that may apply at once, applied if it fits. */
  method ApplyNow(ig: IntegrityState, s: Schedule, pe: Event, nowS: nat) returns (ok: bool)
    requires ig.Valid() && s.Valid()
    modifies s, s.events, ig.settle, ig.pending
    ensures ig.Valid() && s.Valid()
    ensures var g := old(ig.With(s));
      && ok == Fits(g.sched, pe.id)
      && ig.With(s) == if ok then
           g.(sched := Upserted(g.sched, pe), settle := NoteEdit(g.settle, pe.id, nowS), pending := CancelFor(g.pending, pe.id))
         else g
  {
    hide NoteEdit, Upserted, CancelFor;
    ok := SchedUpsert(s, pe);
    if ok {
      ig.NoteEdited(pe.id, nowS);
      ig.CancelPending(pe.id);
    }
  }

  /** One proposed event: the body of the second loop. */
  method PutOne(ig: IntegrityState, s: Schedule, pe: Event, at: Moment) returns (o: Outcome)
    requires ig.Valid() && s.Valid()
    modifies s, s.events, ig.settle, ig.pending
    ensures ig.Valid() && s.Valid()
    ensures (ig.With(s), o) == Next(old(ig.With(s)), Put(pe, at))
  {
    hide NoteEdit, Upserted, ChangeOf, MayApplyNow, CancelFor, Quarantine, Fits;
    var c := Compare(s, pe, at.tz);
    if c == NoChange {
      return NoEffect;
    }
    var instant := AllowedNow(ig, s, pe, c, at);
    if instant {
      var ok := ApplyNow(ig, s, pe, at.nowS);
      return if ok then Applied else LostQueueFull;
    }
    var queued := ig.Hold(s, Pending(true, PendingUpsert, pe.id, at.nowS + LOOSEN_DELAY_S, pe));
    return if queued then Queued else LostQueueFull;
  }

  method HasId(proposed: seq<Event>, id: Uuid) returns (k: nat)
    ensures k == IndexOf(proposed, id)
  {
    k := 0;
    while k < |proposed|
      invariant 0 <= k <= |proposed|
      invariant IndexOf(proposed, id) == k + IndexOf(proposed[k..], id)
    {
      assert proposed[k..][1..] == proposed[k + 1..];
      if proposed[k].id == id {
        return;
      }
      k := k + 1;
    }
  }

  /** The active-event guard. */
  method Rejects(proposed: seq<Event>, at: Moment) returns (rejected: bool)
    ensures rejected <==> LoosensActive(proposed, at)
  {
    hide ClassifyModified;
    if at.active == None {
      return false;
    }
    var active := at.active.value;
    var k := HasId(proposed, active.id);
    var c;
    if k == |proposed| {
      c := ClassifyDeleted(active);
    } else {
      c := ClassifyModifiedLoop(active, proposed[k], at.tz);
    }
    return !IsInstant(c);
  }

  /** Deletions, walking backwards. */
  method DropAll(ig: IntegrityState, s: Schedule, proposed: seq<Event>, at: Moment, rep: Report) returns (r: Report)
    requires ig.Valid() && s.Valid() && Shape(ig.With(s))
    modifies s, s.events, ig.settle, ig.pending
    ensures ig.Valid() && s.Valid()
    ensures ig.With(s) == Run(old(ig.With(s)), Drops(MissingIds(old(s.Contents()), proposed), at))
    ensures r == Total(rep, Outcomes(old(ig.With(s)), Drops(MissingIds(old(s.Contents()), proposed), at)))
  {
    hide Next, Shape, Has;
    r := rep;
    var i := s.count;
    assert s.Contents()[..i] == s.Contents();
    while i > 0
      invariant 0 <= i <= s.count
      invariant ig.Valid() && s.Valid() && Shape(ig.With(s))
      invariant Run(ig.With(s), StillMissing(s.Contents(), i, proposed, at))
             == Run(old(ig.With(s)), Drops(MissingIds(old(s.Contents()), proposed), at))
      invariant Total(r, Outcomes(ig.With(s), StillMissing(s.Contents(), i, proposed, at)))
             == Total(rep, Outcomes(old(ig.With(s)), Drops(MissingIds(old(s.Contents()), proposed), at)))
    {
      i := i - 1;
      r := DropIfMissing(ig, s, proposed, at, i, r);
    }
    assert StillMissing(s.Contents(), 0, proposed, at) == [];
    NothingLeft(ig.With(s), r);
  }

  /** The deletions still to be decided when the backward scan has come down to index `i`. */
  ghost function StillMissing(s: seq<Event>, i: nat, proposed: seq<Event>, at: Moment): seq<Step>
    requires i <= |s|
  {
    Drops(MissingIds(s[..i], proposed), at)
  }

  method DropIfMissing(ig: IntegrityState, s: Schedule, proposed: seq<Event>, at: Moment, i: nat, rep: Report) returns (r: Report)
    requires ig.Valid() && s.Valid() && Shape(ig.With(s)) && i < s.count
    modifies s, s.events, ig.settle, ig.pending
    ensures ig.Valid() && s.Valid() && Shape(ig.With(s)) && i <= s.count
    ensures Run(ig.With(s), StillMissing(s.Contents(), i, proposed, at))
         == Run(old(ig.With(s)), StillMissing(old(s.Contents()), i + 1, proposed, at))
    ensures Total(r, Outcomes(ig.With(s), StillMissing(s.Contents(), i, proposed, at)))
         == Total(rep, Outcomes(old(ig.With(s)), StillMissing(old(s.Contents()), i + 1, proposed, at)))
  {
    hide Next, Shape, Has, Total, Run, Outcomes, MissingIds;
    ghost var before, upTo := ig.With(s), s.Contents()[..i + 1];
    ghost var id, rest := s.events[i].id, StillMissing(s.Contents(), i, proposed, at);
    assert upTo[..i] == s.Contents()[..i];
    var k := HasId(proposed, s.events[i].id);
    if k < |proposed| {
      IsProposed(upTo, proposed);
      return rep;
    }
    NotProposed(upTo, proposed);
    assert StillMissing(s.Contents(), i + 1, proposed, at) == [Drop(id, at)] + rest;
    ShapeGivesIds(before);
    StepKeepsShape(before, Drop(id, at));
    var o := DropOne(ig, s, i, at);
    RunOne(before, Drop(id, at), rest);
    TotalOne(rep, o, Outcomes(ig.With(s), rest));
    return Tally(rep, o);
  }

  lemma NotProposed(s: seq<Event>, proposed: seq<Event>)
    requires s != [] && IndexOf(proposed, s[|s| - 1].id) == |proposed|
    ensures MissingIds(s, proposed) == [s[|s| - 1].id] + MissingIds(s[..|s| - 1], proposed)
  {
  }

  lemma IsProposed(s: seq<Event>, proposed: seq<Event>)
    requires s != [] && IndexOf(proposed, s[|s| - 1].id) < |proposed|
    ensures MissingIds(s, proposed) == MissingIds(s[..|s| - 1], proposed)
  {
  }

  lemma NothingLeft(g: Gate, r: Report)
    ensures Run(g, []) == g && Total(r, Outcomes(g, [])) == r
  {
  }

  /** Additions and modifications. */
  method PutAll(ig: IntegrityState, s: Schedule, proposed: seq<Event>, at: Moment, rep: Report) returns (r: Report)
    requires ig.Valid() && s.Valid()
    modifies s, s.events, ig.settle, ig.pending
    ensures ig.Valid() && s.Valid()
    ensures ig.With(s) == Run(old(ig.With(s)), Puts(proposed, at))
    ensures r == Total(rep, Outcomes(old(ig.With(s)), Puts(proposed, at)))
  {
    hide Next;
    r := rep;
    var i := 0;
    assert proposed[0..] == proposed;
    while i < |proposed|
      invariant 0 <= i <= |proposed|
      invariant ig.Valid() && s.Valid()
      invariant Run(ig.With(s), Puts(proposed[i..], at)) == Run(old(ig.With(s)), Puts(proposed, at))
      invariant Total(r, Outcomes(ig.With(s), Puts(proposed[i..], at))) == Total(rep, Outcomes(old(ig.With(s)), Puts(proposed, at)))
    {
      ghost var before, rest := ig.With(s), Puts(proposed[i + 1..], at);
      assert Puts(proposed[i..], at) == [Put(proposed[i], at)] + rest;
      var o := PutOne(ig, s, proposed[i], at);
      RunOne(before, Put(proposed[i], at), rest);
      TotalOne(r, o, Outcomes(ig.With(s), rest));
      r := Tally(r, o);
      i := i + 1;
    }
    NothingLeft(ig.With(s), r);
  }

  /** impulse_integrity_apply_push. */
  method ApplyPush(ig: IntegrityState, current: Schedule, proposed: seq<Event>, at: Moment) returns (verdict: int, rep: Report)
    requires ig.Valid() && current.Valid() && Shape(ig.With(current))
    modifies current, current.events, ig.settle, ig.pending
    ensures ig.Valid() && current.Valid() && Shape(ig.With(current))
    ensures ig.With(current) == AfterPush(old(ig.With(current)), proposed, at)
    ensures rep == PushReport(old(ig.With(current)), proposed, at) && verdict == Verdict(rep)
  {
    hide Shape, LoosensActive, MissingIds, Outcomes, Run;
    ghost var g := ig.With(current);
    ig.SealUnknown(current, at.nowS);
    ig.Tick(current, at.nowS);
    PreparedIs(g, at);
    RunKeepsShape(g, PushSteps(g, proposed, at));
    rep := Report(0, 0, 0, false);
    var rejected := Rejects(proposed, at);
    if rejected {
      rep := rep.(rejectedActiveEvent := true);
      assert PushSteps(g, proposed, at) == Preamble(at);
      return END_REJECTED, rep;
    }
    PreparedKeepsSchedule(g, at);
    PushInStages(g, proposed, at);
    ghost var dropped := Outcomes(ig.With(current), Drops(MissingIds(g.sched, proposed), at));
    rep := DropAll(ig, current, proposed, at, rep);
    ghost var put := Outcomes(ig.With(current), Puts(proposed, at));
    rep := PutAll(ig, current, proposed, at, rep);
    TotalIsTheReport(dropped, put);
    if rep.quarantined > 0 || rep.droppedQueueFull > 0 {
      return END_QUARANTINED, rep;
    }
    return END_ACCEPTED, rep;
  }

  lemma PreparedIs(g: Gate, at: Moment)
    ensures Prepared(g, at) ==
      g.(settle := SettleAll(SealAll(g.settle, g.sched, at.nowS), g.sched, at.nowS, g.settleWindowMin))
  {
    hide SealAll, SettleAll;
    RunOne(g, Seal(at.nowS), [SettleTick(at.nowS)]);
    var g1 := Next(g, Seal(at.nowS)).0;
    RunOne(g1, SettleTick(at.nowS), []);
    assert [SettleTick(at.nowS)] + [] == [SettleTick(at.nowS)];
  }

  lemma TotalIsTheReport(a: seq<Outcome>, b: seq<Outcome>)
    ensures var os := [NoEffect, NoEffect] + a + b;
      Total(Total(Report(0, 0, 0, false), a), b) == Report(Count(os, Applied), Count(os, Queued), Count(os, LostQueueFull), false)
  {
    var none := [NoEffect, NoEffect];
    forall what | what != NoEffect
      ensures Count(none + a + b, what) == Count(a, what) + Count(b, what)
    {
      CountOfConcat(none + a, b, what);
      CountOfConcat(none, a, what);
      assert none[1..][1..] == [];
    }
  }

  /** impulse_integrity_promote. */
  method Promote(ig: IntegrityState, current: Schedule, at: Moment) returns (promoted: nat)
    requires ig.Valid() && current.Valid()
    modifies current, current.events, ig.settle, ig.pending
    ensures ig.Valid() && current.Valid()
    ensures (ig.With(current), promoted) == PromoteFrom(old(ig.With(current)), 0, at)
  {
    hide Promoted;
    promoted := 0;
    var i := 0;
    while i < PENDING_QUEUE_MAX
      invariant 0 <= i <= PENDING_QUEUE_MAX
      invariant ig.Valid() && current.Valid()
      invariant PromoteFrom(old(ig.With(current)), 0, at)
             == (PromoteFrom(ig.With(current), i, at).0, PromoteFrom(ig.With(current), i, at).1 + promoted)
    {
      var counted := PromoteOne(ig, current, i, at);
      if counted {
        promoted := promoted + 1;
      }
      i := i + 1;
    }
  }

  method PromoteOne(ig: IntegrityState, current: Schedule, i: nat, at: Moment) returns (counted: bool)
    requires ig.Valid() && current.Valid() && i < PENDING_QUEUE_MAX
    modifies current, current.events, ig.settle, ig.pending
    ensures ig.Valid() && current.Valid()
    ensures (ig.With(current), counted) == Promoted(old(ig.With(current)), i, at)
  {
    hide SecondsUntilNextStart, NoteEdit, Upserted, Deleted;
    var p := ig.pending[i];
    if !p.inUse || at.nowS < p.applyAfterS {
      return false;
    }
    match p.kind {
      case PendingDelete =>
        SchedDelete(current, p.targetId);
      case PendingUpsert =>
        if p.proposed.recurrence == RECUR_ONCE {
          var until := SecondsUntilNextStartLoop(p.proposed, at.utc, at.tz);
          if until == I64_MAX {
            ig.pending[i] := p.(inUse := false);
            return false;
          }
        }
        var _ := SchedUpsert(current, p.proposed);
      case PendingSetting =>
    }
    ig.pending[i] := p.(inUse := false);
    ig.NoteEdited(p.targetId, at.nowS);
    return true;
  }

  /** The ageing loop of the pass: spends outside the window are squeezed out in place. */
  method AgeSpends(ig: IntegrityState, nowS: nat)
    requires ig.Valid()
    modifies ig`passSpendCount, ig.passSpendElapsedS
    ensures ig.Valid()
    ensures ig.passSpendElapsedS[..ig.passSpendCount] == Aged(old(ig.passSpendElapsedS[..ig.passSpendCount]), nowS)
  {
    ghost var was := ig.passSpendElapsedS[..ig.passSpendCount];
    var w, i := 0, 0;
    while i < ig.passSpendCount
      invariant 0 <= w <= i <= ig.passSpendCount == |was| <= PASS_SLOTS
      invariant ig.passSpendElapsedS[..w] == Aged(was[..i], nowS)
      invariant forall k :: i <= k < |was| ==> ig.passSpendElapsedS[k] == was[k]
    {
      ghost var kept := ig.passSpendElapsedS[..w];
      assert was[..i + 1][..i] == was[..i];
      if ig.passSpendElapsedS[i] + PASS_WINDOW_S > nowS {
        ig.passSpendElapsedS[w] := ig.passSpendElapsedS[i];
        w := w + 1;
        assert ig.passSpendElapsedS[..w] == kept + [was[i]];
      }
      i := i + 1;
    }
    assert was[..i] == was;
    ig.passSpendCount := w;
  }

  /** impulse_integrity_spend_pass. */
  method Spend(ig: IntegrityState, current: Schedule, id: Uuid, yyyymmdd: U32, nowS: nat)
    returns (ok: bool, remaining: U8)
    requires ig.Valid() && current.Valid()
    modifies ig`passSpendCount, ig.passSpendElapsedS, current, current.events
    ensures ig.Valid() && current.Valid()
    ensures Spent(ig.With(current), ok, remaining) == SpendPass(old(ig.With(current)), id, yyyymmdd, nowS)
  {
    hide PassNegate, Upserted, Aged;
    AgeSpends(ig, nowS);
    var inWindow := ig.passSpendCount;
    if inWindow >= ig.passAllowance {
      return false, 0;
    }
    var k := current.FindIndex(id);
    if k == current.count {
      return false, ig.passAllowance - inWindow;
    }
    var neg := PassNegate(current.events[k], yyyymmdd);
    NegateFits(current.Contents(), k, yyyymmdd);
    var upserted := SchedUpsert(current, neg);
    assert upserted;
    if ig.passSpendCount < PASS_SLOTS {
      ghost var aged := ig.passSpendElapsedS[..ig.passSpendCount];
      ig.passSpendElapsedS[ig.passSpendCount] := nowS;
      ig.passSpendCount := ig.passSpendCount + 1;
      assert ig.passSpendElapsedS[..ig.passSpendCount] == aged + [nowS];
    }
    var used := ig.passSpendCount;
    return true, if used >= ig.passAllowance then 0 else ig.passAllowance - used;
  }

  lemma NegateFits(s: seq<Event>, k: nat, yyyymmdd: U32)
    requires k < |s|
    ensures Fits(s, PassNegate(s[k], yyyymmdd).id)
  {
    HasIff(s, s[k].id);
  }
}
