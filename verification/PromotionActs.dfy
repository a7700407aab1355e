/**
 What one promotion does with every entry of the queue: due ones take effect and leave it, the others stay,
 and the answer counts the former.
 */
module PromotionActs {
  import opened Machine
  import opened Events
  import opened NextStart
  import opened Integrity
  import opened IntegrityInvariants
  import opened Commitment
  import opened Standing
  import opened PushEffects
  import opened Watch

  // ---------------------------------------------------------------------------
  // One turn
  // ---------------------------------------------------------------------------

  /** A replacement by a one-time event of which no start is left within the search horizon. */
  ghost predicate Lapsed(p: Pending, at: Moment) {
    && p.kind == PendingUpsert && p.proposed.recurrence == RECUR_ONCE
    && forall t :: StartsAt(p.proposed, at.tz, t) && t > at.utc ==> t >= HorizonEnd(at.utc, at.tz)
  }

  /** The search can tell whether a start is left: minutes are of a day, and the clock is in range. */
  predicate Datable(p: Pending, at: Moment) {
    p.kind == PendingUpsert ==> p.proposed.startTime < 1440 && SearchFits(at.utc, at.tz)
  }

  lemma ExpiredIff(p: Pending, at: Moment)
    requires Datable(p, at)
    ensures Expired(p, at) <==> Lapsed(p, at)
  {
    hide SecondsUntilNextStart, StartsAt, SearchFits;
    if p.kind == PendingUpsert {
      NextStartIsLeast(p.proposed, at.utc, at.tz);
    }
  }

  /** An entry that promotion carries out. */
  ghost predicate TakesEffect(p: Pending, at: Moment) {
    Due(p, at.nowS) && !Lapsed(p, at)
  }

  /** What is stored under the target once the entry has taken effect; a new event needs room in the table. */
  function Result(p: Pending, s: seq<Event>): Option<Event> {
    match p.kind
    case PendingDelete => None
    case PendingUpsert => if Fits(s, p.targetId) then Some(p.proposed) else Find(s, p.targetId)
    case PendingSetting => Find(s, p.targetId)
  }

  lemma TurnStandsElsewhere(g: Gate, slot: nat, at: Moment, id: Uuid)
    requires Shape(g) && slot < |g.pending| && !ForIt(g.pending[slot], id)
    ensures StandingOf(Promoted(g, slot, at).0, id) == StandingOf(g, id)
  {
    hide Deleted, Upserted, NoteEdit, Find, Expired, Fits, RecordOf, WaitingFor;
    var p, next := g.pending[slot], Promoted(g, slot, at).0;
    if Due(p, at.nowS) {
      UpsertFinds(g.sched, p.proposed, id);
      DeleteFinds(g.sched, p.targetId, id);
      EditElsewhere(g.settle, p.targetId, at.nowS, id);
      SameWaiting(g.pending, next.pending, id);
    }
  }

  lemma TurnActs(g: Gate, slot: nat, at: Moment)
    requires Shape(g) && slot < |g.pending| && Due(g.pending[slot], at.nowS) && Datable(g.pending[slot], at)
    ensures var p, next := g.pending[slot], Promoted(g, slot, at).0;
      && !next.pending[slot].inUse
      && WaitingFor(next.pending, p.targetId) == None
      && Find(next.sched, p.targetId) == (if Lapsed(p, at) then Find(g.sched, p.targetId) else Result(p, g.sched))
      && (!Lapsed(p, at) ==> Reopened(next.settle, p.targetId, at.nowS))
  {
    hide Deleted, Upserted, NoteEdit, Find, Expired, Lapsed, Fits, RecordOf, Datable;
    var p := g.pending[slot];
    ExpiredIff(p, at);
    UpsertFinds(g.sched, p.proposed, p.targetId);
    DeleteFinds(g.sched, p.targetId, p.targetId);
    EditOpens(g.settle, p.targetId, at.nowS);
  }

  /** The event's record, if it has one, starts a new settle window and has no baseline. */
  predicate Reopened(t: seq<Settle>, id: Uuid, nowS: nat) {
    var r := RecordOf(t, id);
    r.Some? ==> r.value.lastEditS == nowS && !r.value.hasBaseline
  }

  // ---------------------------------------------------------------------------
  // The turns before and after it
  // ---------------------------------------------------------------------------

  /** The tables after the first `n` turns. */
  function AfterTurns(g: Gate, n: nat, at: Moment): (r: Gate)
    requires n <= |g.pending|
    ensures |r.pending| == |g.pending|
  {
    if n == 0 then g
    else
      PromotedSameLength(AfterTurns(g, n - 1, at), n - 1, at);
      Promoted(AfterTurns(g, n - 1, at), n - 1, at).0
  }

  lemma {:induction false} TurnsThenRest(g: Gate, n: nat, at: Moment)
    requires n <= |g.pending|
    ensures PromoteFrom(g, 0, at).0 == PromoteFrom(AfterTurns(g, n, at), n, at).0
  {
    hide Promoted;
    if n > 0 {
      TurnsThenRest(g, n - 1, at);
    }
  }

  lemma {:induction false} TurnsKeepShape(g: Gate, n: nat, at: Moment)
    requires Shape(g) && n <= |g.pending|
    ensures var r := AfterTurns(g, n, at);
      && Shape(r)
      && (forall i :: n <= i < |g.pending| ==> r.pending[i] == g.pending[i])
      && |r.sched| <= |g.sched| + n
  {
    hide Shape, Promoted;
    if n > 0 {
      var before := AfterTurns(g, n - 1, at);
      TurnsKeepShape(g, n - 1, at);
      PromotedKeepsShape(before, n - 1, at);
      PromotedSameLength(before, n - 1, at);
      TurnAddsOne(before, n - 1, at);
    }
  }

  lemma TurnAddsOne(g: Gate, slot: nat, at: Moment)
    requires slot < |g.pending|
    ensures |Promoted(g, slot, at).0.sched| <= |g.sched| + 1
  {
    hide NoteEdit, Expired;
  }

  lemma {:induction false} EarlierTurnsElsewhere(g: Gate, n: nat, at: Moment, id: Uuid)
    requires Shape(g) && n <= |g.pending| && forall i :: 0 <= i < n ==> !ForIt(g.pending[i], id)
    ensures StandingOf(AfterTurns(g, n, at), id) == StandingOf(g, id)
  {
    hide Shape, Promoted, StandingOf;
    if n > 0 {
      EarlierTurnsElsewhere(g, n - 1, at, id);
      TurnsKeepShape(g, n - 1, at);
      TurnStandsElsewhere(AfterTurns(g, n - 1, at), n - 1, at, id);
    }
  }

  lemma {:induction false} LaterTurnsElsewhere(g: Gate, slot: nat, at: Moment, id: Uuid)
    requires Shape(g) && slot <= |g.pending| && NoneFor(g.pending, slot, id)
    ensures StandingOf(PromoteFrom(g, slot, at).0, id) == StandingOf(g, id)
    decreases |g.pending| - slot
  {
    hide Shape, Promoted, StandingOf;
    if slot < |g.pending| {
      TurnStandsElsewhere(g, slot, at, id);
      PromotedKeepsShape(g, slot, at);
      PromotedSameLength(g, slot, at);
      LaterTurnsElsewhere(Promoted(g, slot, at).0, slot + 1, at, id);
    }
  }

  /** Later turns leave a slot as its own turn left it. */
  lemma {:induction false} LaterTurnsLeaveSlot(g: Gate, slot: nat, at: Moment, i: nat)
    requires i < slot <= |g.pending|
    ensures |PromoteFrom(g, slot, at).0.pending| == |g.pending|
    ensures PromoteFrom(g, slot, at).0.pending[..slot] == g.pending[..slot]
    decreases |g.pending| - slot
  {
    hide Promoted;
    if slot < |g.pending| {
      var next := Promoted(g, slot, at).0;
      PromotedSameLength(g, slot, at);
      LaterTurnsLeaveSlot(next, slot + 1, at, i);
      var last := PromoteFrom(g, slot, at).0.pending;
      assert last[..slot] == last[..slot + 1][..slot];
      assert next.pending[..slot] == next.pending[..slot + 1][..slot];
    }
  }

  /** The turn of slot `i` within the whole loop. */
  lemma TurnInPromotion(g: Gate, at: Moment, i: nat)
    requires Shape(g) && i < |g.pending|
    ensures var before, last := AfterTurns(g, i, at), PromoteFrom(g, 0, at).0;
      && Shape(before) && before.pending[i] == g.pending[i]
      && |last.pending| == |g.pending| && last.pending[i] == Promoted(before, i, at).0.pending[i]
      && (g.pending[i].inUse ==>
        && StandingOf(before, g.pending[i].targetId) == StandingOf(g, g.pending[i].targetId)
        && StandingOf(last, g.pending[i].targetId) == StandingOf(Promoted(before, i, at).0, g.pending[i].targetId))
  {
    hide Promoted, StandingOf, Shape, AfterTurns, PromoteFrom;
    var before, id := AfterTurns(g, i, at), g.pending[i].targetId;
    TurnsKeepShape(g, i, at);
    NextTurn(g, i, at);
    var next := Promoted(before, i, at).0;
    TurnsThenRest(g, i + 1, at);
    PromotedSameLength(before, i, at);
    LaterTurnsLeaveSlot(next, i + 1, at, i);
    var last := PromoteFrom(g, 0, at).0;
    assert last.pending[i] == last.pending[..i + 1][i];
    assert next.pending[i] == next.pending[..i + 1][i];
    if g.pending[i].inUse {
      OnlyTarget(g, i);
      EarlierTurnsElsewhere(g, i, at, id);
      PromotedKeepsShape(before, i, at);
      LaterTurnsElsewhere(next, i + 1, at, id);
    }
  }

  lemma NextTurn(g: Gate, i: nat, at: Moment)
    requires i < |g.pending|
    ensures AfterTurns(g, i + 1, at) == Promoted(AfterTurns(g, i, at), i, at).0
  {
  }

  lemma OnlyTarget(g: Gate, i: nat)
    requires Shape(g) && i < |g.pending| && g.pending[i].inUse
    ensures forall k :: 0 <= k < |g.pending| && k != i ==> !ForIt(g.pending[k], g.pending[i].targetId)
  {
  }

  // ---------------------------------------------------------------------------
  // The whole loop
  // ---------------------------------------------------------------------------

  /**
   A due entry leaves the queue and its target is as the entry says: gone, or replaced; a one-time replacement
   that can no longer start leaves the target alone.
   */
  lemma DueEntryTakesEffect(g: Gate, at: Moment, i: nat)
    requires Shape(g) && i < |g.pending| && Due(g.pending[i], at.nowS) && Datable(g.pending[i], at)
    ensures var p, last := g.pending[i], PromoteFrom(g, 0, at).0;
      && |last.pending| == |g.pending| && !last.pending[i].inUse
      && WaitingFor(last.pending, p.targetId) == None
      && (Lapsed(p, at) ==> Find(last.sched, p.targetId) == Find(g.sched, p.targetId))
      && (TakesEffect(p, at) && p.kind == PendingDelete ==> Find(last.sched, p.targetId) == None)
      && (TakesEffect(p, at) && p.kind == PendingUpsert && HasPlace(g, at, i) ==> Find(last.sched, p.targetId) == Some(p.proposed))
      && (p.kind == PendingUpsert && !HasPlace(g, at, i) ==> Find(last.sched, p.targetId) == Find(g.sched, p.targetId))
      && (TakesEffect(p, at) ==> Reopened(last.settle, p.targetId, at.nowS))
  {
    hide Promoted, Shape, AfterTurns, PromoteFrom, Find, Fits, RecordOf, WaitingFor, Lapsed, Datable;
    TurnInPromotion(g, at, i);
    TurnActs(AfterTurns(g, i, at), i, at);
  }

  /** The table has room for the entry's event when its turn comes. */
  ghost predicate HasPlace(g: Gate, at: Moment, i: nat)
    requires i < |g.pending|
  {
    Fits(AfterTurns(g, i, at).sched, g.pending[i].targetId)
  }

  /** A stored event always has its place, and with a slot for every entry any event has. */
  lemma EntryHasPlace(g: Gate, at: Moment, i: nat)
    requires Shape(g) && i < |g.pending| && g.pending[i].inUse
    requires Has(g.sched, g.pending[i].targetId) || |g.sched| + i < MAX_EVENTS
    ensures HasPlace(g, at, i)
  {
    hide Promoted, Shape, AfterTurns, PromoteFrom, Find, RecordOf, WaitingFor;
    TurnInPromotion(g, at, i);
    TurnsKeepShape(g, i, at);
    FindHas(g.sched, g.pending[i].targetId);
    FindHas(AfterTurns(g, i, at).sched, g.pending[i].targetId);
  }

  /** An entry not yet due keeps its slot, and its target stays as it was. */
  lemma WaitingEntryStays(g: Gate, at: Moment, i: nat)
    requires Shape(g) && i < |g.pending| && !Due(g.pending[i], at.nowS)
    ensures var p, last := g.pending[i], PromoteFrom(g, 0, at).0;
      && |last.pending| == |g.pending| && last.pending[i] == p
      && (p.inUse ==> StandingOf(last, p.targetId) == StandingOf(g, p.targetId))
  {
    hide Shape, AfterTurns, PromoteFrom, StandingOf, NoteEdit, Expired, Upserted, Deleted;
    TurnInPromotion(g, at, i);
  }

  /** An event no entry is for stays as it was. */
  lemma UntargetedStays(g: Gate, at: Moment, id: Uuid)
    requires Shape(g) && NoneFor(g.pending, 0, id)
    ensures StandingOf(PromoteFrom(g, 0, at).0, id) == StandingOf(g, id)
  {
    hide Shape, PromoteFrom, StandingOf;
    LaterTurnsElsewhere(g, 0, at, id);
  }

  /** Entries from `slot` on that take effect. */
  ghost function Effective(q: seq<Pending>, slot: nat, at: Moment): nat
    requires slot <= |q|
    decreases |q| - slot
  {
    if slot == |q| then 0 else (if TakesEffect(q[slot], at) then 1 else 0) + Effective(q, slot + 1, at)
  }

  lemma {:induction false} EffectiveDependsOnTail(q: seq<Pending>, r: seq<Pending>, slot: nat, at: Moment)
    requires |q| == |r| && slot <= |q| && forall i :: slot <= i < |q| ==> q[i] == r[i]
    ensures Effective(q, slot, at) == Effective(r, slot, at)
    decreases |q| - slot
  {
    hide TakesEffect;
    if slot < |q| {
      EffectiveDependsOnTail(q, r, slot + 1, at);
    }
  }

  /** The answer is the number of entries that took effect. */
  lemma {:induction false} PromotionsAreCounted(g: Gate, slot: nat, at: Moment)
    requires slot <= |g.pending| && forall i :: slot <= i < |g.pending| ==> Datable(g.pending[i], at)
    ensures PromoteFrom(g, slot, at).1 == Effective(g.pending, slot, at)
    decreases |g.pending| - slot
  {
    hide Datable, Promoted, TakesEffect;
    if slot < |g.pending| {
      var next := Promoted(g, slot, at).0;
      PromotedSameLength(g, slot, at);
      TurnCounts(g, slot, at);
      PromotionsAreCounted(next, slot + 1, at);
      EffectiveDependsOnTail(g.pending, next.pending, slot + 1, at);
    }
  }

  lemma TurnCounts(g: Gate, slot: nat, at: Moment)
    requires slot < |g.pending| && Datable(g.pending[slot], at)
    ensures Promoted(g, slot, at).1 <==> TakesEffect(g.pending[slot], at)
  {
    hide Datable, Expired, Lapsed, NoteEdit, Upserted, Deleted;
    ExpiredIff(g.pending[slot], at);
  }

  // ---------------------------------------------------------------------------
  // At boot
  // ---------------------------------------------------------------------------

  lemma RestoredTables(w: Watch)
    ensures Restored(w).sched == w.saved.sched && Restored(w).pending == w.saved.pending
  {
    hide SealAll;
  }

  /** A boot carries out every saved entry that is due by the saved clock, and saves the result. */
  lemma BootCarriesOut(w: Watch, utc: int, tz: int, i: nat)
    requires Runs(w) && i < |w.saved.pending| && Due(w.saved.pending[i], w.savedBaseS)
    requires forall k :: 0 <= k < |w.saved.pending| ==> Datable(w.saved.pending[k], BootMoment(w, utc, tz))
    requires TakesEffect(w.saved.pending[i], BootMoment(w, utc, tz))
    ensures var p, v := w.saved.pending[i], Happens(w, Reboot(utc, tz));
      && v.saved == v.gate
      && WaitingFor(v.gate.pending, p.targetId) == None
      && (p.kind == PendingDelete ==> Find(v.gate.sched, p.targetId) == None)
      && (p.kind == PendingUpsert && Has(w.saved.sched, p.targetId) ==> Find(v.gate.sched, p.targetId) == Some(p.proposed))
  {
    hide Shape, Datable, Find, WaitingFor, Lapsed, PromoteFrom, RecordOf, Restored;
    var g, at := Restored(w), BootMoment(w, utc, tz);
    RestoredTables(w);
    RestoredShape(w);
    DueEntryTakesEffect(g, at, i);
    PromotionsAreCounted(g, 0, at);
    OneIsEffective(g.pending, 0, at, i);
    if Has(w.saved.sched, g.pending[i].targetId) {
      EntryHasPlace(g, at, i);
    }
  }

  lemma {:induction false} OneIsEffective(q: seq<Pending>, slot: nat, at: Moment, i: nat)
    requires slot <= i < |q| && TakesEffect(q[i], at)
    ensures Effective(q, slot, at) > 0
    decreases |q| - slot
  {
    hide TakesEffect;
    if slot < i {
      OneIsEffective(q, slot + 1, at, i);
    }
  }

  /** What a push stored is what a boot right after it restores, for every event without a due entry. */
  lemma RebootKeepsAPush(w: Watch, push: Happening, utc: int, tz: int, id: Uuid)
    requires Invariant(w) && push.Push? && !LoosensActive(push.proposed, MomentOf(w, push))
    requires Invariant(Happens(w, push))
    requires var v := Happens(w, push);
      forall i :: 0 <= i < |v.gate.pending| && Due(v.gate.pending[i], v.savedBaseS) ==> v.gate.pending[i].targetId != id
    ensures Find(Happens(Happens(w, push), Reboot(utc, tz)).gate.sched, id) == Find(Happens(w, push).gate.sched, id)
  {
    hide Shape, PromoteFrom, Restored, AfterPush, LoosensActive, Find, QueuingsTimed, PassesTimed, EntriesKnown;
    var v := Happens(w, push);
    var g, at := Restored(v), BootMoment(v, utc, tz);
    RestoredTables(v);
    RestoredShape(v);
    if Find(PromoteFrom(g, 0, at).0.sched, id) != Find(g.sched, id) {
      var i := PromoteFromFinds(g, 0, at, id);
    }
  }
}
