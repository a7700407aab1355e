/**
 The gate across reboots. RAM, flash and clocks together: what is saved when, what a boot restores, and
 what that means in powered-on time, however often the watch restarts from an older saved clock.
 */
module Watch {
  import opened Machine
  import opened Events
  import opened Integrity
  import opened IntegrityInvariants
  import opened Commitment
  import opened PassLedger

  const SETTLE_WINDOW_FLOOR_MIN := 30
  const SETTLE_WINDOW_CEIL_MIN := 240

  /** One entry put in the queue: when by the elapsed clock, and when by the powered-on clock. */
  datatype Queuing = Queuing(entry: Pending, atS: nat, poweredMs: nat)

  /**
   `poweredMs` is total time spent switched on. No code reads it; it is what the elapsed clock, restored
   from flash at every boot, stands in for.
   */
  datatype Watch = Watch(
    gate: Gate,
    saved: Gate,
    savedBaseS: nat,
    baseS: nat,
    uptimeMs: nat,
    poweredMs: nat,
    queuings: seq<Queuing>,
    passes: seq<Spend>
  )

  /** impulse_elapsed_now_s. */
  function ElapsedS(w: Watch): nat {
    w.baseS + w.uptimeMs / 1000
  }

  function ElapsedMs(w: Watch): nat {
    w.baseS * 1000 + w.uptimeMs
  }

  datatype Happening =
    | TimePasses(ms: nat)
    | Push(proposed: seq<Event>, active: Option<Event>, utc: int, tz: int)
    | SpendAttempt(id: Uuid, date: U32)
    | AllowanceWrite(allowance: U8)
    | WindowWrite(minutes: U16)
    | BaseSaved
    | Reboot(utc: int, tz: int)

  function MomentOf(w: Watch, h: Happening): Moment
    requires h.Push?
  {
    Moment(ElapsedS(w), h.active, h.utc, h.tz)
  }

  /** The entries a push left in the queue that were not there before it. */
  function NewEntries(before: seq<Pending>, after: seq<Pending>, atS: nat, poweredMs: nat): seq<Queuing>
    requires |before| == |after|
  {
    if after == [] then []
    else
      var n := |after| - 1;
      var rest := NewEntries(before[..n], after[..n], atS, poweredMs);
      if after[n].inUse && after[n] != before[n] then rest + [Queuing(after[n], atS, poweredMs)] else rest
  }

  /** Every recorded queuing is an entry some slot gained ... */
  lemma {:induction false} NewEntryIsNew(before: seq<Pending>, after: seq<Pending>, atS: nat, poweredMs: nat, i: nat) returns (k: nat)
    requires |before| == |after| && i < |NewEntries(before, after, atS, poweredMs)|
    ensures k < |after| && after[k].inUse && after[k] != before[k]
    ensures NewEntries(before, after, atS, poweredMs)[i] == Queuing(after[k], atS, poweredMs)
  {
    var n := |after| - 1;
    if i < |NewEntries(before[..n], after[..n], atS, poweredMs)| {
      k := NewEntryIsNew(before[..n], after[..n], atS, poweredMs, i);
    } else {
      k := n;
    }
  }

  /** ... and every entry a slot gained is recorded. */
  lemma {:induction false} NewEntryIsRecorded(before: seq<Pending>, after: seq<Pending>, atS: nat, poweredMs: nat, k: nat) returns (i: nat)
    requires |before| == |after| && k < |after| && after[k].inUse && after[k] != before[k]
    ensures i < |NewEntries(before, after, atS, poweredMs)|
    ensures NewEntries(before, after, atS, poweredMs)[i] == Queuing(after[k], atS, poweredMs)
  {
    var n := |after| - 1;
    if k < n {
      i := NewEntryIsRecorded(before[..n], after[..n], atS, poweredMs, k);
    } else {
      i := |NewEntries(before[..n], after[..n], atS, poweredMs)|;
    }
  }

  function Clamp(minutes: U16): U16 {
    if minutes < SETTLE_WINDOW_FLOOR_MIN then SETTLE_WINDOW_FLOOR_MIN
    else if minutes > SETTLE_WINDOW_CEIL_MIN then SETTLE_WINDOW_CEIL_MIN
    else minutes
  }

  /** Only the integrity record is written, not the schedule. */
  function IntegritySaved(w: Watch): Watch {
    w.(saved := w.gate.(sched := w.saved.sched))
  }

  ghost predicate Runs(w: Watch) {
    && Shape(w.gate) && Shape(w.saved)
    && w.gate.allowance <= PASS_BUDGET_DEFAULT && w.saved.allowance <= PASS_BUDGET_DEFAULT
  }

  /** A boot: restore, seal what has no record, restore the clock, promote what has waited long enough. */
  function Restored(w: Watch): Gate {
    w.saved.(settle := SealAll(w.saved.settle, w.saved.sched, 0))
  }

  function BootMoment(w: Watch, utc: int, tz: int): Moment {
    Moment(w.savedBaseS, None, utc, tz)
  }

  ghost function Happens(w: Watch, h: Happening): Watch
    requires Runs(w)
  {
    match h
    case TimePasses(ms) => w.(uptimeMs := w.uptimeMs + ms, poweredMs := w.poweredMs + ms)
    case Push(proposed, active, utc, tz) =>
      var at := MomentOf(w, h);
      var g := AfterPush(w.gate, proposed, at);
      RunKeepsShape(w.gate, PushSteps(w.gate, proposed, at));
      w.(gate := g,
         saved := if LoosensActive(proposed, at) then w.saved else g,
         queuings := w.queuings + NewEntries(w.gate.pending, g.pending, ElapsedS(w), w.poweredMs))
    case SpendAttempt(id, date) =>
      var r := SpendPass(w.gate, id, date, ElapsedS(w));
      w.(gate := r.gate,
         saved := if r.ok then r.gate else w.saved,
         passes := if r.ok then w.passes + [Spend(ElapsedS(w), w.poweredMs)] else w.passes)
    case AllowanceWrite(allowance) =>
      if allowance > w.gate.allowance then w else IntegritySaved(w.(gate := SetAllowance(w.gate, allowance)))
    case WindowWrite(minutes) =>
      IntegritySaved(if Clamp(minutes) > w.gate.settleWindowMin then w else w.(gate := w.gate.(settleWindowMin := Clamp(minutes))))
    case BaseSaved => w.(savedBaseS := ElapsedS(w))
    case Reboot(utc, tz) =>
      var (g, promoted) := PromoteFrom(Restored(w), 0, BootMoment(w, utc, tz));
      w.(gate := g, saved := if promoted > 0 then g else w.saved, baseS := w.savedBaseS, uptimeMs := 0)
  }

  // ---------------------------------------------------------------------------
  // The invariant
  // ---------------------------------------------------------------------------

  ghost predicate EntriesKnown(q: seq<Pending>, known: seq<Queuing>) {
    forall i :: 0 <= i < |q| && q[i].inUse ==> exists k :: 0 <= k < |known| && known[k].entry == q[i]
  }

  /** The elapsed clock has run no further since the event than the powered clock, up to one truncated second. */
  predicate NoFasterSince(w: Watch, atS: nat, poweredMs: int) {
    ElapsedMs(w) - (atS * 1000 + 999) <= w.poweredMs - poweredMs
  }

  ghost predicate QueuingsTimed(w: Watch) {
    forall k :: 0 <= k < |w.queuings| ==>
      && w.queuings[k].entry.applyAfterS == w.queuings[k].atS + LOOSEN_DELAY_S
      && NoFasterSince(w, w.queuings[k].atS, w.queuings[k].poweredMs)
  }

  /** Stamps at or before this are at least seven powered-on days, less one second, in the past. */
  function PassCutoff(w: Watch): int {
    w.poweredMs - PASS_WINDOW_S * 1000 + 999
  }

  ghost predicate PassesTimed(w: Watch) {
    && (forall k :: 0 <= k < |w.passes| ==> NoFasterSince(w, w.passes[k].elapsedS, w.passes[k].stamp))
    && Matches(w.passes, w.gate.spends, PassCutoff(w))
    && Matches(w.passes, w.saved.spends, PassCutoff(w))
  }

  ghost predicate Invariant(w: Watch) {
    && Runs(w)
    && w.savedBaseS * 1000 <= ElapsedMs(w)
    && EntriesKnown(w.gate.pending, w.queuings) && EntriesKnown(w.saved.pending, w.queuings)
    && QueuingsTimed(w)
    && PassesTimed(w)
  }

  // ---------------------------------------------------------------------------
  // It is kept
  // ---------------------------------------------------------------------------

  lemma {:induction false} PromoteFromKeepsShape(g: Gate, slot: nat, at: Moment)
    requires Shape(g) && slot <= |g.pending|
    ensures Shape(PromoteFrom(g, slot, at).0)
    decreases |g.pending| - slot
  {
    hide Shape, Promoted;
    if slot < |g.pending| {
      PromotedKeepsShape(g, slot, at);
      PromotedSameLength(g, slot, at);
      PromoteFromKeepsShape(Promoted(g, slot, at).0, slot + 1, at);
    }
  }

  /** A promotion turn touches its own queue slot only, and never adds an entry. */
  lemma PromotedSameLength(g: Gate, slot: nat, at: Moment)
    requires slot < |g.pending|
    ensures var next := Promoted(g, slot, at).0;
      && |next.pending| == |g.pending|
      && (forall i :: 0 <= i < |g.pending| && i != slot ==> next.pending[i] == g.pending[i])
      && (next.pending[slot].inUse ==> next.pending[slot] == g.pending[slot])
      && next.spends == g.spends && next.allowance == g.allowance
  {
    hide Expired, NoteEdit, Upserted, Deleted;
  }

  lemma {:induction false} PromoteFromQueue(g: Gate, slot: nat, at: Moment)
    requires slot <= |g.pending|
    ensures var next := PromoteFrom(g, slot, at).0;
      && |next.pending| == |g.pending|
      && (forall i :: 0 <= i < |g.pending| && next.pending[i].inUse ==> next.pending[i] == g.pending[i])
      && next.spends == g.spends && next.allowance == g.allowance
    decreases |g.pending| - slot
  {
    hide Promoted;
    if slot < |g.pending| {
      PromotedSameLength(g, slot, at);
      PromoteFromQueue(Promoted(g, slot, at).0, slot + 1, at);
    }
  }

  lemma RestoredShape(w: Watch)
    requires Shape(w.saved)
    ensures Shape(Restored(w))
  {
    hide SealAll;
    SealAllShape(w.saved.settle, w.saved.sched, 0);
  }

  lemma {:induction false} RunKeepsLedger(g: Gate, steps: seq<Step>)
    ensures Run(g, steps).spends == g.spends && Run(g, steps).allowance == g.allowance
    ensures |Run(g, steps).pending| == |g.pending|
    decreases |steps|
  {
    hide Next;
    if steps != [] {
      StepKeepsLedger(g, steps[0]);
      RunKeepsLedger(Next(g, steps[0]).0, steps[1..]);
    }
  }

  lemma StepKeepsLedger(g: Gate, step: Step)
    ensures Next(g, step).0.spends == g.spends && Next(g, step).0.allowance == g.allowance
    ensures |Next(g, step).0.pending| == |g.pending|
  {
    hide SealAll, NoteEdit, Upserted, Deleted, ChangeOf, MayApplyNow, BeyondHorizon, Expired;
  }

  lemma StepKeepsRuns(w: Watch, h: Happening)
    requires Runs(w)
    ensures Runs(Happens(w, h))
  {
    hide Shape, SpendPass, PushSteps, Run, SealAll, PromoteFrom;
    match h
    case Push(proposed, active, utc, tz) =>
      RunKeepsShape(w.gate, PushSteps(w.gate, proposed, MomentOf(w, h)));
      RunKeepsLedger(w.gate, PushSteps(w.gate, proposed, MomentOf(w, h)));
    case SpendAttempt(id, date) =>
      ShapeGivesRoom(w.gate);
      SpendKeepsShape(w.gate, id, date, ElapsedS(w));
      SpendKeepsAllowance(w.gate, id, date, ElapsedS(w));
    case AllowanceWrite(allowance) => MixedShape(w.gate, w.saved, w.gate.settleWindowMin, allowance);
    case WindowWrite(minutes) => MixedShape(w.gate, w.saved, Clamp(minutes), w.gate.allowance);
      MixedShape(w.gate, w.saved, w.gate.settleWindowMin, w.gate.allowance);
    case Reboot(utc, tz) =>
      RestoredShape(w);
      PromoteFromKeepsShape(Restored(w), 0, BootMoment(w, utc, tz));
      PromoteFromQueue(Restored(w), 0, BootMoment(w, utc, tz));
    case _ =>
  }

  lemma ShapeGivesRoom(g: Gate)
    requires Shape(g)
    ensures |g.spends| <= PASS_SLOTS && |g.pending| == PENDING_QUEUE_MAX
  {
  }

  lemma MixedShape(g: Gate, s: Gate, minutes: U16, allowance: U8)
    requires Shape(g) && Shape(s)
    ensures Shape(g.(settleWindowMin := minutes, allowance := allowance))
    ensures Shape(g.(settleWindowMin := minutes, allowance := allowance).(sched := s.sched))
    ensures Shape(g.(sched := s.sched))
  {
  }

  /** A push queues nothing but entries due 24 hours of elapsed time later. */
  lemma PushQueues(g: Gate, proposed: seq<Event>, at: Moment, slot: nat)
    requires Shape(g) && slot < |g.pending|
    ensures |AfterPush(g, proposed, at).pending| == |g.pending|
    ensures var p := AfterPush(g, proposed, at).pending[slot];
      p.inUse && p != g.pending[slot] ==> p.applyAfterS == at.nowS + LOOSEN_DELAY_S
  {
    hide Shape, LoosensActive, MissingIds, Run, EmptyEvent;
    EntriesWereQueued(g, PushSteps(g, proposed, at), slot);
  }

  lemma PushKeepsQueue(w: Watch, h: Happening)
    requires Invariant(w) && h.Push?
    ensures var v := Happens(w, h);
      EntriesKnown(v.gate.pending, v.queuings) && EntriesKnown(v.saved.pending, v.queuings) && QueuingsTimed(v)
  {
    hide Shape, AfterPush, PassesTimed;
    var at, v := MomentOf(w, h), Happens(w, h);
    ShapeGivesRoom(w.gate);
    PushQueues(w.gate, h.proposed, at, 0);
    var added := NewEntries(w.gate.pending, v.gate.pending, ElapsedS(w), w.poweredMs);
    forall k | 0 <= k < |added|
      ensures added[k].entry.applyAfterS == added[k].atS + LOOSEN_DELAY_S
      ensures added[k].atS == ElapsedS(w) && added[k].poweredMs == w.poweredMs
    {
      var i := NewEntryIsNew(w.gate.pending, v.gate.pending, ElapsedS(w), w.poweredMs, k);
      PushQueues(w.gate, h.proposed, at, i);
    }
    KnownGrows(w.saved.pending, w.queuings, added);
    KnownGrows(w.gate.pending, w.queuings, added);
    forall i | 0 <= i < |v.gate.pending| && v.gate.pending[i].inUse
      ensures exists k :: 0 <= k < |v.queuings| && v.queuings[k].entry == v.gate.pending[i]
    {
      if v.gate.pending[i] != w.gate.pending[i] {
        var k := NewEntryIsRecorded(w.gate.pending, v.gate.pending, ElapsedS(w), w.poweredMs, i);
        assert v.queuings[|w.queuings| + k] == added[k];
      }
    }
  }

  lemma KnownGrows(q: seq<Pending>, known: seq<Queuing>, more: seq<Queuing>)
    requires EntriesKnown(q, known)
    ensures EntriesKnown(q, known + more)
  {
    forall i | 0 <= i < |q| && q[i].inUse
      ensures exists k :: 0 <= k < |known + more| && (known + more)[k].entry == q[i]
    {
      var k :| 0 <= k < |known| && known[k].entry == q[i];
      assert (known + more)[k].entry == q[i];
    }
  }

  lemma KnownShrinks(q: seq<Pending>, r: seq<Pending>, known: seq<Queuing>)
    requires EntriesKnown(q, known) && |r| == |q|
    requires forall i :: 0 <= i < |q| && r[i].inUse ==> r[i] == q[i]
    ensures EntriesKnown(r, known)
  {
  }

  lemma StepKeepsQueue(w: Watch, h: Happening)
    requires Invariant(w)
    ensures var v := Happens(w, h);
      EntriesKnown(v.gate.pending, v.queuings) && EntriesKnown(v.saved.pending, v.queuings) && QueuingsTimed(v)
  {
    hide Shape, AfterPush, PassesTimed, SpendPass, PromoteFrom, EntriesKnown;
    match h
    case Push(_, _, _, _) => PushKeepsQueue(w, h);
    case SpendAttempt(id, date) =>
      ShapeGivesRoom(w.gate);
      SpendKeepsQueue(w.gate, id, date, ElapsedS(w));
    case Reboot(utc, tz) =>
      PromoteFromQueue(Restored(w), 0, BootMoment(w, utc, tz));
      KnownShrinks(w.saved.pending, PromoteFrom(Restored(w), 0, BootMoment(w, utc, tz)).0.pending, w.queuings);
    case _ =>
  }

  lemma SpendKeepsQueue(g: Gate, id: Uuid, date: U32, nowS: nat)
    requires |g.spends| <= PASS_SLOTS
    ensures SpendPass(g, id, date, nowS).gate.pending == g.pending
  {
  }

  lemma AgeingIsSafeNow(w: Watch)
    requires forall k :: 0 <= k < |w.passes| ==> NoFasterSince(w, w.passes[k].elapsedS, w.passes[k].stamp)
    ensures AgeingIsSafe(w.passes, ElapsedS(w), PassCutoff(w))
  {
  }

  lemma StepKeepsPasses(w: Watch, h: Happening)
    requires Invariant(w)
    ensures PassesTimed(Happens(w, h))
  {
    hide Shape, SpendPass, PromoteFrom, EntriesKnown, QueuingsTimed, Matches, PushSteps, Run;
    match h
    case TimePasses(ms) =>
      LaterStillMatches(w.passes, w.gate.spends, PassCutoff(w), PassCutoff(Happens(w, h)));
      LaterStillMatches(w.passes, w.saved.spends, PassCutoff(w), PassCutoff(Happens(w, h)));
    case Push(proposed, active, utc, tz) =>
      RunKeepsLedger(w.gate, PushSteps(w.gate, proposed, MomentOf(w, h)));
    case SpendAttempt(id, date) =>
      ShapeGivesRoom(w.gate);
      AgeingIsSafeNow(w);
      SpendKeepsLedger(w.gate, w.passes, id, date, ElapsedS(w), PassCutoff(w), w.poweredMs);
    case Reboot(utc, tz) =>
      PromoteFromQueue(Restored(w), 0, BootMoment(w, utc, tz));
    case _ =>
  }

  /** Every happening keeps the invariant: distinct ids within capacity, known queue entries, honest clocks. */
  lemma HappeningKeepsInvariant(w: Watch, h: Happening)
    requires Invariant(w)
    ensures Invariant(Happens(w, h))
  {
    StepKeepsRuns(w, h);
    StepKeepsQueue(w, h);
    StepKeepsPasses(w, h);
    ClockStaysHonest(w, h);
  }

  lemma ClockStaysHonest(w: Watch, h: Happening)
    requires Runs(w) && w.savedBaseS * 1000 <= ElapsedMs(w)
    ensures Happens(w, h).savedBaseS * 1000 <= ElapsedMs(Happens(w, h))
  {
    hide Runs, AfterPush, SpendPass, PromoteFrom;
  }

  // ---------------------------------------------------------------------------
  // Whole lives of a watch
  // ---------------------------------------------------------------------------

  function Factory(): Gate {
    Gate([],
         seq(MAX_EVENTS, _ => Settle(false, ZeroUuid(), 0, false, EmptyEvent())),
         seq(PENDING_QUEUE_MAX, _ => Pending(false, PendingUpsert, ZeroUuid(), 0, EmptyEvent())),
         SETTLE_WINDOW_DEFAULT_MIN, [], PASS_BUDGET_DEFAULT)
  }

  function New(): Watch {
    Watch(Factory(), Factory(), 0, 0, 0, 0, [], [])
  }

  lemma NewIsSound()
    ensures Invariant(New())
  {
    assert Matches([], [], PassCutoff(New()));
  }

  /** The watch after everything that happened to it, from the factory on. */
  ghost function Lived(hs: seq<Happening>): (w: Watch)
    ensures Invariant(w)
    decreases |hs|
  {
    if hs == [] then
      NewIsSound();
      New()
    else
      var before := Lived(hs[..|hs| - 1]);
      HappeningKeepsInvariant(before, hs[|hs| - 1]);
      Happens(before, hs[|hs| - 1])
  }

  lemma LivedNothing()
    ensures Lived([]) == New()
  {
    hide Invariant, Happens, New;
  }

  lemma LivedLast(hs: seq<Happening>)
    requires hs != []
    ensures Runs(Lived(hs[..|hs| - 1]))
    ensures Lived(hs) == Happens(Lived(hs[..|hs| - 1]), hs[|hs| - 1])
  {
    hide Happens, Shape, QueuingsTimed, PassesTimed, EntriesKnown;
  }

  /** In every life, however often the watch reboots into an older saved clock: ids distinct and within capacity. */
  lemma EveryLifeKeepsShape(hs: seq<Happening>)
    ensures Shape(Lived(hs).gate) && Shape(Lived(hs).saved)
    ensures Lived(hs).gate.allowance <= PASS_BUDGET_DEFAULT
  {
    hide Shape, Happens;
    assert Invariant(Lived(hs));
  }

  // ---------------------------------------------------------------------------
  // The settle window
  // ---------------------------------------------------------------------------

  predicate WindowInBounds(g: Gate) {
    30 <= g.settleWindowMin <= 120
  }

  lemma StepKeepsWindow(g: Gate, step: Step)
    requires !step.ShrinkWindow?
    ensures Next(g, step).0.settleWindowMin == g.settleWindowMin
  {
    hide SealAll, NoteEdit, Upserted, Deleted, ChangeOf, MayApplyNow, BeyondHorizon, Expired;
  }

  lemma {:induction false} RunKeepsWindow(g: Gate, steps: seq<Step>)
    requires forall i :: 0 <= i < |steps| ==> !steps[i].ShrinkWindow?
    ensures Run(g, steps).settleWindowMin == g.settleWindowMin
    decreases |steps|
  {
    hide Next;
    if steps != [] {
      StepKeepsWindow(g, steps[0]);
      RunKeepsWindow(Next(g, steps[0]).0, steps[1..]);
    }
  }

  lemma {:induction false} PromoteFromKeepsWindow(g: Gate, slot: nat, at: Moment)
    requires slot <= |g.pending|
    ensures PromoteFrom(g, slot, at).0.settleWindowMin == g.settleWindowMin
    decreases |g.pending| - slot
  {
    hide Promoted;
    if slot < |g.pending| {
      PromotedSameLength(g, slot, at);
      StepKeepsWindow(g, PromoteSlot(slot, at));
      PromoteFromKeepsWindow(Promoted(g, slot, at).0, slot + 1, at);
    }
  }

  lemma SpendKeepsWindow(g: Gate, id: Uuid, date: U32, nowS: nat)
    requires |g.spends| <= PASS_SLOTS
    ensures SpendPass(g, id, date, nowS).gate.settleWindowMin == g.settleWindowMin
  {
  }

  /** What a write leaves as the window: it never grows, and never falls below half an hour unless it was there. */
  lemma HappeningMovesWindow(w: Watch, h: Happening)
    requires Runs(w)
    ensures var v := Happens(w, h);
      && (!h.WindowWrite? && !h.Reboot? ==> v.gate.settleWindowMin == w.gate.settleWindowMin)
      && (h.WindowWrite? && WindowInBounds(w.gate) ==>
            v.gate.settleWindowMin == if h.minutes < 30 then 30 else if h.minutes <= w.gate.settleWindowMin then h.minutes else w.gate.settleWindowMin)
      && (WindowInBounds(w.gate) && WindowInBounds(w.saved) ==> WindowInBounds(v.gate) && WindowInBounds(v.saved))
  {
    hide Shape, SpendPass, PushSteps, Run, SealAll, PromoteFrom;
    match h
    case Push(proposed, active, utc, tz) => PushKeepsWindow(w.gate, proposed, MomentOf(w, h));
    case SpendAttempt(id, date) =>
      ShapeGivesRoom(w.gate);
      SpendKeepsWindow(w.gate, id, date, ElapsedS(w));
    case Reboot(utc, tz) => PromoteFromKeepsWindow(Restored(w), 0, BootMoment(w, utc, tz));
    case _ =>
  }

  lemma PushKeepsWindow(g: Gate, proposed: seq<Event>, at: Moment)
    ensures AfterPush(g, proposed, at).settleWindowMin == g.settleWindowMin
  {
    hide LoosensActive, Run, MissingIds;
    RunKeepsWindow(g, PushSteps(g, proposed, at));
  }

  lemma NewWindow()
    ensures WindowInBounds(New().gate) && WindowInBounds(New().saved)
  {
  }

  /** In every life the settle window, live or saved, is between half an hour and the two hours it starts with. */
  lemma {:induction false} WindowStaysInBounds(hs: seq<Happening>)
    ensures WindowInBounds(Lived(hs).gate) && WindowInBounds(Lived(hs).saved)
    decreases |hs|
  {
    hide Lived, Happens, Runs, New, WindowInBounds, Invariant;
    if hs == [] {
      LivedNothing();
      NewWindow();
    } else {
      WindowStaysInBounds(hs[..|hs| - 1]);
      LivedLast(hs);
      HappeningMovesWindow(Lived(hs[..|hs| - 1]), hs[|hs| - 1]);
    }
  }

  // ---------------------------------------------------------------------------
  // No loosening before its 24 powered-on hours
  // ---------------------------------------------------------------------------

  /** What a promoted entry leaves stored under its target. */
  function Effect(p: Pending): Option<Event> {
    if p.kind == PendingDelete then None else Some(p.proposed)
  }

  lemma PromotedFinds(g: Gate, slot: nat, at: Moment, id: Uuid)
    requires Shape(g) && slot < |g.pending|
    ensures Find(Promoted(g, slot, at).0.sched, id) != Find(g.sched, id) ==>
      && Due(g.pending[slot], at.nowS) && g.pending[slot].targetId == id
      && Find(Promoted(g, slot, at).0.sched, id) == Effect(g.pending[slot])
  {
    hide Deleted, Upserted, NoteEdit, Find, Expired, Fits;
    UpsertFinds(g.sched, g.pending[slot].proposed, id);
    DeleteFinds(g.sched, g.pending[slot].targetId, id);
  }

  /** No entry from `slot` on is for this event. */
  ghost predicate NoneFor(q: seq<Pending>, slot: nat, id: Uuid) {
    forall i :: slot <= i < |q| && q[i].inUse ==> q[i].targetId != id
  }

  /** Entries for other events leave this one alone. */
  lemma {:induction false} OthersLeaveAlone(g: Gate, slot: nat, at: Moment, id: Uuid)
    requires Shape(g) && slot <= |g.pending| && NoneFor(g.pending, slot, id)
    ensures Find(PromoteFrom(g, slot, at).0.sched, id) == Find(g.sched, id)
    decreases |g.pending| - slot
  {
    hide Shape, Promoted, Find;
    if slot < |g.pending| {
      PromotedFinds(g, slot, at, id);
      PromotedKeepsShape(g, slot, at);
      PromotedSameLength(g, slot, at);
      OthersLeaveAlone(Promoted(g, slot, at).0, slot + 1, at, id);
    }
  }

  lemma TargetsAreDistinct(g: Gate, slot: nat)
    requires Shape(g) && slot < |g.pending| && g.pending[slot].inUse
    ensures NoneFor(g.pending, slot + 1, g.pending[slot].targetId)
  {
  }

  /** A boot changes a stored event only through a due entry that targets it, and to what that entry says. */
  lemma {:induction false} PromoteFromFinds(g: Gate, slot: nat, at: Moment, id: Uuid) returns (i: nat)
    requires Shape(g) && slot <= |g.pending|
    requires Find(PromoteFrom(g, slot, at).0.sched, id) != Find(g.sched, id)
    ensures slot <= i < |g.pending| && Due(g.pending[i], at.nowS) && g.pending[i].targetId == id
    ensures Find(PromoteFrom(g, slot, at).0.sched, id) == Effect(g.pending[i])
    decreases |g.pending| - slot
  {
    hide Shape, Promoted, Find, Effect;
    i := slot;
    if slot < |g.pending| {
      var next := Promoted(g, slot, at).0;
      PromotedFinds(g, slot, at, id);
      PromotedKeepsShape(g, slot, at);
      PromotedSameLength(g, slot, at);
      if Find(next.sched, id) == Find(g.sched, id) {
        i := PromoteFromFinds(next, slot + 1, at, id);
      } else {
        TargetsAreDistinct(g, slot);
        OthersLeaveAlone(next, slot + 1, at, id);
      }
    }
  }

  /** What the queue gained when `w` became `v`. */
  ghost predicate Gained(w: Watch, v: Watch, p: Pending) {
    && |v.gate.pending| == |w.gate.pending| && p.inUse
    && exists i :: 0 <= i < |v.gate.pending| && v.gate.pending[i] == p && w.gate.pending[i] != p
  }

  /** The push at position `j` of the life put this entry in the queue. */
  ghost predicate QueuedByPush(hs: seq<Happening>, j: nat, q: Queuing)
    requires j < |hs|
  {
    && hs[j].Push?
    && q.atS == ElapsedS(Lived(hs[..j])) && q.poweredMs == Lived(hs[..j]).poweredMs
    && Gained(Lived(hs[..j]), Lived(hs[..j + 1]), q.entry)
  }

  lemma HappensQueuings(w: Watch, h: Happening)
    requires Runs(w)
    ensures !h.Push? ==> Happens(w, h).queuings == w.queuings
    ensures h.Push? ==>
      && |Happens(w, h).gate.pending| == |w.gate.pending|
      && Happens(w, h).queuings == w.queuings + NewEntries(w.gate.pending, Happens(w, h).gate.pending, ElapsedS(w), w.poweredMs)
  {
    hide SpendPass, PromoteFrom, PushSteps, Run, Shape, NewEntries;
    if h.Push? {
      RunKeepsLedger(w.gate, PushSteps(w.gate, h.proposed, MomentOf(w, h)));
    }
  }

  lemma LongerHistory(hs: seq<Happening>, j: nat, q: Queuing)
    requires j + 1 < |hs| && QueuedByPush(hs[..|hs| - 1], j, q)
    ensures QueuedByPush(hs, j, q)
  {
    hide Lived, Gained;
    assert hs[..|hs| - 1][..j] == hs[..j];
    assert hs[..|hs| - 1][..j + 1] == hs[..j + 1];
  }

  /** Every recorded queuing is the work of a push in the life so far. */
  lemma {:induction false} QueuingsAreHistory(hs: seq<Happening>, k: nat) returns (j: nat)
    requires k < |Lived(hs).queuings|
    ensures j < |hs| && QueuedByPush(hs, j, Lived(hs).queuings[k])
    decreases |hs|
  {
    hide Happens, Lived, Runs, Invariant, NewEntries, QueuedByPush;
    var n := |hs| - 1;
    NothingQueuedYet();
    if hs != [] {
      var before := Lived(hs[..n]);
      LivedLast(hs);
      HappensQueuings(before, hs[n]);
      if k < |before.queuings| {
        j := QueuingsAreHistory(hs[..n], k);
        LongerHistory(hs, j, Lived(hs).queuings[k]);
      } else {
        j := n;
        LastPushQueued(hs, k);
      }
    }
  }

  lemma NothingQueuedYet()
    ensures Lived([]).queuings == [] && Lived([]).passes == []
  {
    hide Lived, Factory;
    LivedNothing();
  }

  lemma LastPushQueued(hs: seq<Happening>, k: nat)
    requires hs != [] && hs[|hs| - 1].Push?
    requires |Lived(hs[..|hs| - 1]).queuings| <= k < |Lived(hs).queuings|
    ensures QueuedByPush(hs, |hs| - 1, Lived(hs).queuings[k])
  {
    hide Happens, Lived, Runs, Invariant;
    var n := |hs| - 1;
    var w, v := Lived(hs[..n]), Lived(hs);
    LivedLast(hs);
    assert hs[..n + 1] == hs;
    HappensQueuings(w, hs[n]);
    var i := NewEntryIsNew(w.gate.pending, v.gate.pending, ElapsedS(w), w.poweredMs, k - |w.queuings|);
    assert v.queuings[k].entry == v.gate.pending[i];
  }

  lemma {:induction false} QueuingsGrow(hs: seq<Happening>, j: nat)
    requires j <= |hs|
    ensures Lived(hs[..j]).queuings <= Lived(hs).queuings
    decreases |hs|
  {
    hide Happens, Lived, Runs, Invariant, NewEntries;
    var n := |hs| - 1;
    if j == |hs| {
      assert hs[..j] == hs;
    } else {
      QueuingsGrow(hs[..n], j);
      assert hs[..n][..j] == hs[..j];
      LivedLast(hs);
      HappensQueuings(Lived(hs[..n]), hs[n]);
    }
  }

  /** Every push that put an entry in the queue is on record. */
  lemma QueuedByPushIsRecorded(hs: seq<Happening>, j: nat, q: Queuing) returns (k: nat)
    requires j < |hs| && QueuedByPush(hs, j, q)
    ensures k < |Lived(hs).queuings| && Lived(hs).queuings[k] == q
  {
    hide Happens, Lived, Runs, Invariant, NewEntries;
    var w, v := Lived(hs[..j]), Lived(hs[..j + 1]);
    assert hs[..j + 1][..j] == hs[..j];
    LivedLast(hs[..j + 1]);
    HappensQueuings(w, hs[j]);
    var slot :| 0 <= slot < |v.gate.pending| && v.gate.pending[slot] == q.entry && w.gate.pending[slot] != q.entry;
    var i := NewEntryIsRecorded(w.gate.pending, v.gate.pending, ElapsedS(w), w.poweredMs, slot);
    k := |w.queuings| + i;
    QueuingsGrow(hs, j + 1);
  }

  const DAY_OF_POWER_MS := 86_400_000
  const LOST_TO_TRUNCATION_MS := 999

  /** Since this queuing the watch has been powered on for 24 hours, to within the one second lost to truncation. */
  ghost predicate ADayOld(hs: seq<Happening>, q: Queuing) {
    Lived(hs).poweredMs - q.poweredMs >= DAY_OF_POWER_MS - LOST_TO_TRUNCATION_MS
  }

  lemma RecordedIsADayOld(hs: seq<Happening>, k: nat)
    requires k < |Lived(hs).queuings|
    requires Due(Lived(hs).queuings[k].entry, Lived(hs).savedBaseS)
    ensures ADayOld(hs, Lived(hs).queuings[k])
  {
    hide Runs, PassesTimed, EntriesKnown, Happens;
  }

  /** The saved entry in this slot would be promoted by a boot now. */
  ghost predicate DueAtBoot(hs: seq<Happening>, slot: nat) {
    slot < |Lived(hs).saved.pending| && Due(Lived(hs).saved.pending[slot], Lived(hs).savedBaseS)
  }

  /** Every push that put this very entry in the queue did so a powered-on day ago. */
  ghost predicate AllADayOld(hs: seq<Happening>, p: Pending) {
    forall j, q :: 0 <= j < |hs| && QueuedByPush(hs, j, q) && q.entry == p ==> ADayOld(hs, q)
  }

  /**
   Whatever the life so far, pushes, passes, clock writes and reboots into older saved clocks included: each
   entry a boot now would promote was put in the queue, that very entry, by a push of this life, and every
   push that did so did it 24 powered-on hours ago.
   */
  lemma DueEntryHasWaited(hs: seq<Happening>, slot: nat) returns (j: nat, q: Queuing)
    requires DueAtBoot(hs, slot)
    ensures j < |hs| && QueuedByPush(hs, j, q) && q.entry == Lived(hs).saved.pending[slot]
    ensures AllADayOld(hs, Lived(hs).saved.pending[slot]) && ADayOld(hs, q)
  {
    hide Runs, QueuingsTimed, PassesTimed, QueuedByPush, ADayOld, Happens;
    var w, p := Lived(hs), Lived(hs).saved.pending[slot];
    var k :| 0 <= k < |w.queuings| && w.queuings[k].entry == p;
    q := w.queuings[k];
    j := QueuingsAreHistory(hs, k);
    forall i, r | 0 <= i < |hs| && QueuedByPush(hs, i, r) && r.entry == p
      ensures ADayOld(hs, r)
    {
      var n := QueuedByPushIsRecorded(hs, i, r);
      RecordedIsADayOld(hs, n);
    }
  }

  /**
   If a boot changes the stored event `id`, then it promoted an entry for it, that entry is what is stored
   afterwards, and that very entry has waited in the queue for 24 powered-on hours.
   */
  lemma NoEarlyPromotion(hs: seq<Happening>, utc: int, tz: int, id: Uuid) returns (slot: nat, j: nat, q: Queuing)
    requires Find(Lived(hs + [Reboot(utc, tz)]).gate.sched, id) != Find(Lived(hs).saved.sched, id)
    ensures DueAtBoot(hs, slot) && q.entry == Lived(hs).saved.pending[slot] && q.entry.targetId == id
    ensures Find(Lived(hs + [Reboot(utc, tz)]).gate.sched, id) == Effect(q.entry)
    ensures j < |hs| && QueuedByPush(hs, j, q) && ADayOld(hs, q) && AllADayOld(hs, q.entry)
  {
    hide Shape, PromoteFrom, Find, QueuedByPush, Invariant, ADayOld, AllADayOld, Lived, Effect;
    var w := Lived(hs);
    assert (hs + [Reboot(utc, tz)])[..|hs|] == hs;
    LivedLast(hs + [Reboot(utc, tz)]);
    RestoredShape(w);
    slot := PromoteFromFinds(Restored(w), 0, BootMoment(w, utc, tz), id);
    j, q := DueEntryHasWaited(hs, slot);
  }

  // ---------------------------------------------------------------------------
  // Passes in powered-on time
  // ---------------------------------------------------------------------------

  /** Spends made after the last seven powered-on days, less one second, began. */
  function SpendsThisWeek(w: Watch): nat {
    Recent(w.passes, PassCutoff(w))
  }

  lemma SpendStaysWithinAllowance(w: Watch, id: Uuid, date: U32)
    requires Invariant(w)
    ensures var after := Happens(w, SpendAttempt(id, date));
      |after.passes| > |w.passes| ==> SpendsThisWeek(after) <= w.gate.allowance
  {
    hide Shape, SpendPass, Matches, EntriesKnown, QueuingsTimed, Aged, Recent;
    ShapeGivesRoom(w.gate);
    AgeingIsSafeNow(w);
    SpendKeepsLedger(w.gate, w.passes, id, date, ElapsedS(w), PassCutoff(w), w.poweredMs);
  }

  /** In every life, a successful spend leaves no more spends in the week up to it than the allowance in force. */
  lemma NoLifeExceedsTheAllowance(hs: seq<Happening>, id: Uuid, date: U32)
    ensures var before, after := Lived(hs), Lived(hs + [SpendAttempt(id, date)]);
      |after.passes| > |before.passes| ==> SpendsThisWeek(after) <= before.gate.allowance
  {
    hide Invariant, Happens, Recent;
    assert (hs + [SpendAttempt(id, date)])[..|hs|] == hs;
    SpendStaysWithinAllowance(Lived(hs), id, date);
  }

  /** The attempt at position `j` of the life succeeded, as this record says. */
  ghost predicate WonBy(hs: seq<Happening>, j: nat, p: Spend)
    requires j < |hs|
  {
    && hs[j].SpendAttempt?
    && p == Spend(ElapsedS(Lived(hs[..j])), Lived(hs[..j]).poweredMs)
    && Lived(hs[..j + 1]).passes == Lived(hs[..j]).passes + [p]
  }

  lemma HappensPasses(w: Watch, h: Happening)
    requires Runs(w)
    ensures Happens(w, h).passes == w.passes
         || (h.SpendAttempt? && Happens(w, h).passes == w.passes + [Spend(ElapsedS(w), w.poweredMs)])
  {
    hide SpendPass, PromoteFrom, PushSteps, Run, Shape, NewEntries;
  }

  /** Every recorded spend is a successful attempt of the life so far. */
  lemma {:induction false} SpendsAreHistory(hs: seq<Happening>, k: nat) returns (j: nat)
    requires k < |Lived(hs).passes|
    ensures j < |hs| && WonBy(hs, j, Lived(hs).passes[k])
    decreases |hs|
  {
    hide Happens, Lived, Runs, Invariant;
    var n := |hs| - 1;
    NothingQueuedYet();
    if hs != [] {
      LivedLast(hs);
      assert hs[..n + 1] == hs;
      HappensPasses(Lived(hs[..n]), hs[n]);
      if k < |Lived(hs[..n]).passes| {
        j := SpendsAreHistory(hs[..n], k);
        assert hs[..n][..j] == hs[..j] && hs[..n][..j + 1] == hs[..j + 1];
      } else {
        j := n;
      }
    }
  }
}
