/**
 The commitment-integrity gate as functions on values: the settle table, the queue of loosenings, and
 what one push, one promotion and one pass do to them and to the schedule.

 A push is a sequence of decisions about one event each. Each decision is a function here, so that the
 theorems about pushes, promotions and whole runs are all about the same small steps.
 */
module Integrity {
  import opened Machine
  import opened CivilDate
  import opened Events
  import opened NextStart
  import opened Classify

  const SETTLE_WINDOW_DEFAULT_MIN := 120
  const LOOSEN_DELAY_S := 24 * 3600
  const LOOSEN_FREE_HORIZON_S := 24 * 3600
  const PASS_BUDGET_DEFAULT: U8 := 2
  const PASS_WINDOW_S := 7 * 86400
  const PENDING_QUEUE_MAX := 16
  const PASS_SLOTS := 8

  datatype Settle = Settle(inUse: bool, eventId: Uuid, lastEditS: nat, hasBaseline: bool, baseline: Event)

  datatype PendingKind = PendingUpsert | PendingDelete | PendingSetting

  datatype Pending = Pending(inUse: bool, kind: PendingKind, targetId: Uuid, applyAfterS: nat, proposed: Event)

  /** Everything the gate decides with and about. */
  datatype Gate = Gate(
    sched: seq<Event>,
    settle: seq<Settle>,
    pending: seq<Pending>,
    settleWindowMin: U16,
    spends: seq<nat>,
    allowance: U8
  )

  /** When and where a decision is taken: elapsed seconds, the event in force, wall clock, timezone. */
  datatype Moment = Moment(nowS: nat, active: Option<Event>, utc: int, tz: int)

  // ---------------------------------------------------------------------------
  // The settle table
  // ---------------------------------------------------------------------------

  function SettleIndex(t: seq<Settle>, id: Uuid): (i: nat)
    ensures i <= |t|
    ensures i < |t| ==> t[i].inUse && t[i].eventId == id
    ensures forall k :: 0 <= k < i ==> !(t[k].inUse && t[k].eventId == id)
  {
    if t == [] then 0
    else if t[0].inUse && t[0].eventId == id then 0
    else 1 + SettleIndex(t[1..], id)
  }

  function FreeSettle(t: seq<Settle>): (i: nat)
    ensures i <= |t|
    ensures i < |t| ==> !t[i].inUse
    ensures forall k :: 0 <= k < i ==> t[k].inUse
  {
    if t == [] then 0
    else if !t[0].inUse then 0
    else 1 + FreeSettle(t[1..])
  }

  /** An event with no record is treated as settled in its current state. */
  function SealOne(t: seq<Settle>, e: Event, nowS: nat): (r: seq<Settle>)
    ensures |r| == |t|
  {
    var free := FreeSettle(t);
    if SettleIndex(t, e.id) < |t| || free == |t| then t
    else t[free := Settle(true, e.id, nowS, true, e)]
  }

  function SealAll(t: seq<Settle>, s: seq<Event>, nowS: nat): (r: seq<Settle>)
    ensures |r| == |t|
    decreases |s|
  {
    if s == [] then t else SealAll(SealOne(t, s[0], nowS), s[1..], nowS)
  }

  /** A record whose window has passed without an edit takes the event's current state as its baseline. */
  function SettleOne(st: Settle, s: seq<Event>, nowS: nat, windowMin: U16): Settle {
    var e := Find(s, st.eventId);
    if !st.inUse || st.hasBaseline || nowS < st.lastEditS + windowMin * 60 || e == None then st
    else st.(hasBaseline := true, baseline := e.value)
  }

  function SettleAll(t: seq<Settle>, s: seq<Event>, nowS: nat, windowMin: U16): (r: seq<Settle>)
    ensures |r| == |t|
    ensures forall i :: 0 <= i < |t| ==> r[i] == SettleOne(t[i], s, nowS, windowMin)
  {
    seq(|t|, i requires 0 <= i < |t| => SettleOne(t[i], s, nowS, windowMin))
  }

  /** An accepted change reopens the event's window and drops its baseline. */
  function NoteEdit(t: seq<Settle>, id: Uuid, nowS: nat): (r: seq<Settle>)
    ensures |r| == |t|
  {
    var i, free := SettleIndex(t, id), FreeSettle(t);
    if i < |t| then t[i := t[i].(lastEditS := nowS, hasBaseline := false)]
    else if free < |t| then t[free := Settle(true, id, nowS, false, EmptyEvent())]
    else t
  }

  // ---------------------------------------------------------------------------
  // The queue
  // ---------------------------------------------------------------------------

  function CancelFor(q: seq<Pending>, id: Uuid): (r: seq<Pending>)
    ensures |r| == |q|
    ensures forall i :: 0 <= i < |q| ==> r[i] == if q[i].inUse && q[i].targetId == id then q[i].(inUse := false) else q[i]
  {
    seq(|q|, i requires 0 <= i < |q| => if q[i].inUse && q[i].targetId == id then q[i].(inUse := false) else q[i])
  }

  function FreePending(q: seq<Pending>): (i: nat)
    ensures i <= |q|
    ensures i < |q| ==> !q[i].inUse
    ensures forall k :: 0 <= k < i ==> q[k].inUse
  {
    if q == [] then 0
    else if !q[0].inUse then 0
    else 1 + FreePending(q[1..])
  }

  // ---------------------------------------------------------------------------
  // The schedule table
  // ---------------------------------------------------------------------------

  predicate Fits(s: seq<Event>, id: Uuid) {
    Has(s, id) || |s| < MAX_EVENTS
  }

  function Upserted(s: seq<Event>, e: Event): seq<Event> {
    var i := IndexOf(s, e.id);
    if i < |s| then s[i := e]
    else if |s| < MAX_EVENTS then s + [e]
    else s
  }

  function Deleted(s: seq<Event>, id: Uuid): seq<Event> {
    var i := IndexOf(s, id);
    if i < |s| then s[..i] + s[i + 1..] else s
  }

  // ---------------------------------------------------------------------------
  // The rules
  // ---------------------------------------------------------------------------

  /** No settled baseline yet, or still at least as binding as it. */
  ghost predicate WithinFreeEdit(t: seq<Settle>, pe: Event, tz: int) {
    var i := SettleIndex(t, pe.id);
    i == |t| || !t[i].hasBaseline || IsInstant(ClassifyModified(t[i].baseline, pe, tz))
  }

  predicate BeyondHorizon(e: Event, at: Moment) {
    && !(at.active.Some? && at.active.value.id == e.id)
    && SecondsUntilNextStart(e, at.utc, at.tz) > LOOSEN_FREE_HORIZON_S
  }

  /** How the stored schedule compares with one proposed event. */
  ghost function ChangeOf(s: seq<Event>, pe: Event, tz: int): Change {
    var ce := Find(s, pe.id);
    if ce == None then ClassifyAdded(pe) else ClassifyModified(ce.value, pe, tz)
  }

  datatype Outcome = NoEffect | Applied | Queued | LostQueueFull

  /** Newer intent replaces older; a full queue drops the loosening instead of applying it. */
  function Quarantine(g: Gate, p: Pending): (Gate, Outcome) {
    var q := CancelFor(g.pending, p.targetId);
    var free := FreePending(q);
    if free < |q| then (g.(pending := q[free := p.(inUse := true)]), Queued)
    else (g.(pending := q), LostQueueFull)
  }

  /** The stored event with this id is missing from the proposal. */
  function DropEvent(g: Gate, id: Uuid, at: Moment): (Gate, Outcome)
    requires Has(g.sched, id)
  {
    if BeyondHorizon(Find(g.sched, id).value, at) then
      (g.(sched := Deleted(g.sched, id), settle := NoteEdit(g.settle, id, at.nowS), pending := CancelFor(g.pending, id)), Applied)
    else
      Quarantine(g, Pending(true, PendingDelete, id, at.nowS + LOOSEN_DELAY_S, EmptyEvent()))
  }

  ghost predicate MayApplyNow(g: Gate, pe: Event, at: Moment) {
    || IsInstant(ChangeOf(g.sched, pe, at.tz))
    || WithinFreeEdit(g.settle, pe, at.tz)
    || BeyondHorizon(pe, at)
  }

  /** One event of the proposal. */
  ghost function PutEvent(g: Gate, pe: Event, at: Moment): (Gate, Outcome) {
    if ChangeOf(g.sched, pe, at.tz) == NoChange then (g, NoEffect)
    else if MayApplyNow(g, pe, at) then
      if Fits(g.sched, pe.id) then
        (g.(sched := Upserted(g.sched, pe), settle := NoteEdit(g.settle, pe.id, at.nowS), pending := CancelFor(g.pending, pe.id)), Applied)
      else (g, LostQueueFull)
    else
      Quarantine(g, Pending(true, PendingUpsert, pe.id, at.nowS + LOOSEN_DELAY_S, pe))
  }

  // ---------------------------------------------------------------------------
  // Steps and runs
  // ---------------------------------------------------------------------------

  /** One decision, or one of the two bookkeeping passes that precede them. */
  datatype Step =
    | Seal(nowS: nat)
    | SettleTick(nowS: nat)
    | Drop(id: Uuid, at: Moment)
    | Put(event: Event, at: Moment)
    | PromoteSlot(slot: nat, at: Moment)
    | ShrinkWindow(minutes: U16)

  predicate Due(p: Pending, nowS: nat) {
    p.inUse && nowS >= p.applyAfterS
  }

  /** A one-time event with no start left is dropped from the queue without being applied. */
  predicate Expired(p: Pending, at: Moment) {
    && p.kind == PendingUpsert
    && p.proposed.recurrence == RECUR_ONCE
    && SecondsUntilNextStart(p.proposed, at.utc, at.tz) == I64_MAX
  }

  /** One turn of the promotion loop, and whether it counts as a promotion. */
  function Promoted(g: Gate, slot: nat, at: Moment): (Gate, bool)
    requires slot < |g.pending|
  {
    var p := g.pending[slot];
    var q := g.pending[slot := p.(inUse := false)];
    if !Due(p, at.nowS) then (g, false)
    else if Expired(p, at) then (g.(pending := q), false)
    else
      var sched := match p.kind
        case PendingDelete => Deleted(g.sched, p.targetId)
        case PendingUpsert => Upserted(g.sched, p.proposed)
        case PendingSetting => g.sched;
      (g.(sched := sched, settle := NoteEdit(g.settle, p.targetId, at.nowS), pending := q), true)
  }

  ghost function Next(g: Gate, step: Step): (Gate, Outcome) {
    match step
    case Seal(nowS) => (g.(settle := SealAll(g.settle, g.sched, nowS)), NoEffect)
    case SettleTick(nowS) => (g.(settle := SettleAll(g.settle, g.sched, nowS, g.settleWindowMin)), NoEffect)
    case Drop(id, at) => if Has(g.sched, id) then DropEvent(g, id, at) else (g, NoEffect)
    case Put(pe, at) => PutEvent(g, pe, at)
    case PromoteSlot(slot, at) => if slot < |g.pending| then (Promoted(g, slot, at).0, NoEffect) else (g, NoEffect)
    case ShrinkWindow(minutes) => (if minutes <= g.settleWindowMin then g.(settleWindowMin := minutes) else g, NoEffect)
  }

  ghost function Run(g: Gate, steps: seq<Step>): Gate
    decreases |steps|
  {
    if steps == [] then g else Run(Next(g, steps[0]).0, steps[1..])
  }

  ghost function Outcomes(g: Gate, steps: seq<Step>): (os: seq<Outcome>)
    ensures |os| == |steps|
    decreases |steps|
  {
    if steps == [] then [] else [Next(g, steps[0]).1] + Outcomes(Next(g, steps[0]).0, steps[1..])
  }

  function Count(os: seq<Outcome>, o: Outcome): nat {
    if os == [] then 0 else (if os[0] == o then 1 else 0) + Count(os[1..], o)
  }

  // ---------------------------------------------------------------------------
  // A push
  // ---------------------------------------------------------------------------

  const END_ACCEPTED := 1
  const END_QUARANTINED := 3
  const END_REJECTED := 4

  datatype Report = Report(applied: nat, quarantined: nat, droppedQueueFull: nat, rejectedActiveEvent: bool)

  /** The stored ids the proposal leaves out, last first. */
  function MissingIds(s: seq<Event>, proposed: seq<Event>): seq<Uuid> {
    if s == [] then []
    else
      var last := s[|s| - 1].id;
      (if Has(proposed, last) then [] else [last]) + MissingIds(s[..|s| - 1], proposed)
  }

  function Drops(ids: seq<Uuid>, at: Moment): (steps: seq<Step>)
    ensures |steps| == |ids|
    ensures forall i :: 0 <= i < |ids| ==> steps[i] == Drop(ids[i], at)
  {
    seq(|ids|, i requires 0 <= i < |ids| => Drop(ids[i], at))
  }

  function Puts(proposed: seq<Event>, at: Moment): (steps: seq<Step>)
    ensures |steps| == |proposed|
    ensures forall i :: 0 <= i < |proposed| ==> steps[i] == Put(proposed[i], at)
  {
    seq(|proposed|, i requires 0 <= i < |proposed| => Put(proposed[i], at))
  }

  function Preamble(at: Moment): seq<Step> {
    [Seal(at.nowS), SettleTick(at.nowS)]
  }

  /** The proposal would loosen the event in force. */
  ghost predicate LoosensActive(proposed: seq<Event>, at: Moment) {
    at.active.Some? &&
    var pa := Find(proposed, at.active.value.id);
    !IsInstant(if pa == None then ClassifyDeleted(at.active.value) else ClassifyModified(at.active.value, pa.value, at.tz))
  }

  function Decisions(s: seq<Event>, proposed: seq<Event>, at: Moment): seq<Step> {
    Drops(MissingIds(s, proposed), at) + Puts(proposed, at)
  }

  /** The steps a push takes. */
  ghost function PushSteps(g: Gate, proposed: seq<Event>, at: Moment): seq<Step> {
    Preamble(at) + (if LoosensActive(proposed, at) then [] else Decisions(g.sched, proposed, at))
  }

  ghost function AfterPush(g: Gate, proposed: seq<Event>, at: Moment): Gate {
    Run(g, PushSteps(g, proposed, at))
  }

  ghost function PushReport(g: Gate, proposed: seq<Event>, at: Moment): Report {
    if LoosensActive(proposed, at) then Report(0, 0, 0, true)
    else
      var os := Outcomes(g, PushSteps(g, proposed, at));
      Report(Count(os, Applied), Count(os, Queued), Count(os, LostQueueFull), false)
  }

  function Verdict(r: Report): int {
    if r.rejectedActiveEvent then END_REJECTED
    else if r.quarantined > 0 || r.droppedQueueFull > 0 then END_QUARANTINED
    else END_ACCEPTED
  }

  // ---------------------------------------------------------------------------
  // Promotion
  // ---------------------------------------------------------------------------

  function PromoteFrom(g: Gate, slot: nat, at: Moment): (Gate, nat)
    requires slot <= |g.pending|
    decreases |g.pending| - slot
  {
    if slot == |g.pending| then (g, 0)
    else
      var (next, counted) := Promoted(g, slot, at);
      var (last, n) := PromoteFrom(next, slot + 1, at);
      (last, n + if counted then 1 else 0)
  }

  function PromoteSteps(n: nat, at: Moment): (steps: seq<Step>)
    ensures |steps| == n
    ensures forall i :: 0 <= i < n ==> steps[i] == PromoteSlot(i, at)
  {
    seq(n, i requires 0 <= i < n => PromoteSlot(i, at))
  }

  // ---------------------------------------------------------------------------
  // The pass
  // ---------------------------------------------------------------------------

  predicate Unexpired(spendS: nat, nowS: nat) {
    spendS + PASS_WINDOW_S > nowS
  }

  /** The compaction: spends still inside the rolling window, in order. */
  function Aged(spends: seq<nat>, nowS: nat): (r: seq<nat>)
    ensures |r| <= |spends|
  {
    if spends == [] then []
    else
      var front := Aged(spends[..|spends| - 1], nowS);
      if Unexpired(spends[|spends| - 1], nowS) then front + [spends[|spends| - 1]] else front
  }

  function PassDate(yyyymmdd: U32): Date {
    Date(yyyymmdd / 10000, (yyyymmdd / 100) % 100, yyyymmdd % 100)
  }

  lemma PassInstantFits(d: Date)
    requires 0 <= d.year < 0x1_0000_0000
    ensures -0x8000_0000_0000_0000 <= UtcFromLocalMidnight(d, 0) + 12 * 3600 < 0x8000_0000_0000_0000
  {
    hide DaysFromCivil;
    DaysFromCivilSplits(d);
  }

  /** The stored event turned into a one-day cancellation at noon of the date. */
  function PassNegate(target: Event, yyyymmdd: U32): Event {
    PassInstantFits(PassDate(yyyymmdd));
    target.(recurrence := RECUR_ONCE, negate := true, dayOfWeek := 0, dayOfMonth := 0,
            referenceDate := UtcFromLocalMidnight(PassDate(yyyymmdd), 0) + 12 * 3600)
  }

  datatype Spent = Spent(gate: Gate, ok: bool, remaining: U8)

  function SpendPass(g: Gate, id: Uuid, yyyymmdd: U32, nowS: nat): Spent
    requires |g.spends| <= PASS_SLOTS
  {
    var aged := Aged(g.spends, nowS);
    var g1 := g.(spends := aged);
    if |aged| >= g.allowance then Spent(g1, false, 0)
    else
      var target := Find(g.sched, id);
      if target == None then Spent(g1, false, g.allowance - |aged|)
      else
        var spends := if |aged| < PASS_SLOTS then aged + [nowS] else aged;
        Spent(g1.(sched := Upserted(g.sched, PassNegate(target.value, yyyymmdd)), spends := spends), true,
              if |spends| >= g.allowance then 0 else g.allowance - |spends|)
  }

  /** Raising the allowance is refused. */
  function SetAllowance(g: Gate, allowance: U8): Gate {
    if allowance > g.allowance then g else g.(allowance := allowance)
  }
}
