/**
 When an attempt at the emergency pass succeeds, in any run of attempts and allowance writes on one elapsed
 clock: exactly when the event is stored and the last seven days hold fewer spends than the allowance.
 */
module PassGrants {
  import opened Machine
  import opened Events
  import opened Integrity
  import opened IntegrityInvariants
  import opened PassLedger
  import opened PushEffects

  // ---------------------------------------------------------------------------
  // The ledger is the last seven days of the history
  // ---------------------------------------------------------------------------

  /** The spends stamped after `cutoff`, oldest first. */
  function Since(history: seq<Spend>, cutoff: int): seq<nat> {
    if history == [] then []
    else
      var front, last := Since(history[..|history| - 1], cutoff), history[|history| - 1];
      if last.stamp > cutoff then front + [last.elapsedS] else front
  }

  lemma {:induction false} SinceCounts(history: seq<Spend>, cutoff: int)
    ensures |Since(history, cutoff)| == Recent(history, cutoff)
  {
    if history != [] {
      SinceCounts(history[..|history| - 1], cutoff);
    }
  }

  ghost predicate OneClock(history: seq<Spend>) {
    forall i :: 0 <= i < |history| ==> history[i].stamp == history[i].elapsedS
  }

  /** Ageing keeps the spends of the last seven days and no other. */
  lemma {:induction false} AgeingKeepsTheWeek(history: seq<Spend>, cutoff: int, nowS: nat)
    requires OneClock(history) && cutoff <= nowS - PASS_WINDOW_S
    ensures Aged(Since(history, cutoff), nowS) == Since(history, nowS - PASS_WINDOW_S)
  {
    if history != [] {
      var front, last := history[..|history| - 1], history[|history| - 1];
      AgeingKeepsTheWeek(front, cutoff, nowS);
      var led := Since(front, cutoff);
      assert (led + [last.elapsedS])[..|led|] == led;
    }
  }

  lemma SinceAppended(history: seq<Spend>, cutoff: int, s: Spend)
    requires s.stamp > cutoff
    ensures Since(history + [s], cutoff) == Since(history, cutoff) + [s.elapsedS]
    ensures Recent(history + [s], cutoff) == Recent(history, cutoff) + 1
  {
    assert (history + [s])[..|history|] == history;
  }

  /** Nothing but the spends of the seven days up to the last attempt is in the ledger, and all of those are. */
  ghost predicate Exact(l: Ledger) {
    && OneClock(l.history)
    && l.gate.allowance <= PASS_SLOTS && |l.gate.spends| <= PASS_SLOTS
    && l.gate.spends == Since(l.history, l.nowS - PASS_WINDOW_S)
  }

  function SpentInTheWeek(l: Ledger, nowS: nat): nat {
    Recent(l.history, nowS - PASS_WINDOW_S)
  }

  // ---------------------------------------------------------------------------
  // One attempt
  // ---------------------------------------------------------------------------

  /** The answer to an attempt, from the history alone. */
  lemma AttemptIsDecided(l: Ledger, id: Uuid, date: U32, nowS: nat)
    requires Exact(l) && nowS >= l.nowS
    ensures var r, used := SpendPass(l.gate, id, date, nowS), SpentInTheWeek(l, nowS);
      && (r.ok <==> Has(l.gate.sched, id) && used < l.gate.allowance)
      && (r.ok ==> r.remaining == l.gate.allowance - (used + 1))
      && (!r.ok && used < l.gate.allowance ==> r.remaining == l.gate.allowance - used)
      && (used >= l.gate.allowance ==> r.remaining == 0)
  {
    hide PassNegate, Upserted, Aged;
    AgeingKeepsTheWeek(l.history, l.nowS - PASS_WINDOW_S, nowS);
    SinceCounts(l.history, nowS - PASS_WINDOW_S);
    HasIff(l.gate.sched, id);
  }

  lemma AttemptKeepsExact(l: Ledger, id: Uuid, date: U32, nowS: nat)
    requires Exact(l) && nowS >= l.nowS
    ensures Exact(After(l, Attempt(id, date, nowS)))
  {
    hide PassNegate, Upserted, Aged;
    AgeingKeepsTheWeek(l.history, l.nowS - PASS_WINDOW_S, nowS);
    SinceAppended(l.history, nowS - PASS_WINDOW_S, Spend(nowS, nowS));
  }

  /** A success turns the stored event into its one-day cancellation; nothing else is touched, and a refusal touches nothing. */
  lemma AttemptStores(g: Gate, id: Uuid, date: U32, nowS: nat, other: Uuid)
    requires Shape(g)
    ensures var r := SpendPass(g, id, date, nowS);
      Find(r.gate.sched, other)
        == if r.ok && other == id then Some(PassNegate(Find(g.sched, id).value, date)) else Find(g.sched, other)
  {
    hide PassNegate, Upserted, Aged;
    if Has(g.sched, id) {
      var negated := PassNegate(Find(g.sched, id).value, date);
      NegatedKeepsId(Find(g.sched, id).value, date);
      UpsertFinds(g.sched, negated, other);
      FoundIsNamed(g.sched, id);
    }
  }

  lemma NegatedKeepsId(e: Event, date: U32)
    ensures PassNegate(e, date).id == e.id
  {
  }

  lemma FoundIsNamed(s: seq<Event>, id: Uuid)
    requires Has(s, id)
    ensures Find(s, id).Some? && Find(s, id).value.id == id && Fits(s, id)
  {
  }

  // ---------------------------------------------------------------------------
  // Runs
  // ---------------------------------------------------------------------------

  lemma StepKeepsExact(l: Ledger, step: LedgerStep)
    requires Exact(l) && InOrder(l, step)
    ensures Exact(After(l, step))
  {
    hide SpendPass;
    match step
    case Attempt(id, date, nowS) => AttemptKeepsExact(l, id, date, nowS);
    case Allow(_) =>
  }

  lemma {:induction false} RunKeepsExact(l: Ledger, steps: seq<LedgerStep>)
    requires Exact(l) && AllInOrder(l, steps)
    ensures Exact(AfterAll(l, steps))
    decreases |steps|
  {
    hide After, Exact;
    SlotsBounded(l);
    if steps != [] {
      var front := steps[..|steps| - 1];
      EarlierInOrder(l, steps, |front|);
      RunKeepsExact(l, front);
      assert InOrder(AfterAll(l, steps[..|steps| - 1]), steps[|steps| - 1]);
      StepKeepsExact(AfterAll(l, front), steps[|steps| - 1]);
    }
  }

  lemma SlotsBounded(l: Ledger)
    requires Exact(l)
    ensures |l.gate.spends| <= PASS_SLOTS
  {
  }

  lemma EarlierInOrder(l: Ledger, steps: seq<LedgerStep>, k: nat)
    requires |l.gate.spends| <= PASS_SLOTS && AllInOrder(l, steps) && k <= |steps|
    ensures AllInOrder(l, steps[..k])
  {
    hide AfterAll, InOrder;
    forall j | 0 <= j < k
      ensures InOrder(AfterAll(l, steps[..k][..j]), steps[..k][j])
    {
      assert steps[..k][..j] == steps[..j];
    }
  }

  /** The allowance in force: the least of the one at the start and all those written since. */
  function LeastAllowance(initial: U8, steps: seq<LedgerStep>): U8 {
    if steps == [] then initial
    else
      var before, last := LeastAllowance(initial, steps[..|steps| - 1]), steps[|steps| - 1];
      if last.Allow? && last.allowance < before then last.allowance else before
  }

  lemma {:induction false} AllowanceIsLeast(l: Ledger, steps: seq<LedgerStep>)
    requires |l.gate.spends| <= PASS_SLOTS
    ensures AfterAll(l, steps).gate.allowance == LeastAllowance(l.gate.allowance, steps)
    decreases |steps|
  {
    hide SpendPass;
    if steps != [] {
      var before, last := AfterAll(l, steps[..|steps| - 1]), steps[|steps| - 1];
      AllowanceIsLeast(l, steps[..|steps| - 1]);
      if last.Attempt? {
        SpendKeepsAllowance(before.gate, last.id, last.date, last.nowS);
      }
    }
  }

  /** Passes neither add nor remove an id. */
  lemma {:induction false} SameIdsStored(l: Ledger, steps: seq<LedgerStep>, id: Uuid)
    requires |l.gate.spends| <= PASS_SLOTS
    ensures Has(AfterAll(l, steps).gate.sched, id) <==> Has(l.gate.sched, id)
    decreases |steps|
  {
    hide After, Has;
    if steps != [] {
      SameIdsStored(l, steps[..|steps| - 1], id);
      StepKeepsIds(AfterAll(l, steps[..|steps| - 1]), steps[|steps| - 1], id);
    }
  }

  lemma StepKeepsIds(l: Ledger, step: LedgerStep, id: Uuid)
    requires |l.gate.spends| <= PASS_SLOTS
    ensures Has(After(l, step).gate.sched, id) <==> Has(l.gate.sched, id)
  {
    hide PassNegate, Aged, Has;
    if step.Attempt? && Find(l.gate.sched, step.id).Some? {
      var e := Find(l.gate.sched, step.id).value;
      NegatedKeepsId(e, step.date);
      ReplacingKeepsIds(l.gate.sched, step.id, PassNegate(e, step.date), id);
    }
  }

  lemma ReplacingKeepsIds(s: seq<Event>, gone: Uuid, e: Event, id: Uuid)
    requires Find(s, gone).Some? && e.id == Find(s, gone).value.id
    ensures Has(Upserted(s, e), id) <==> Has(s, id)
  {
    HasIff(s, id);
    HasIff(Upserted(s, e), id);
    var k := IndexOf(s, e.id);
    assert forall i :: 0 <= i < |s| ==> Upserted(s, e)[i].id == s[i].id;
  }

  /**
   From an empty ledger, whatever attempts and allowance writes came before: an attempt succeeds if and only
   if the event is stored and the seven days up to it hold fewer successful spends than the least allowance
   so far; and what it reports as remaining is that allowance less the spends then in those seven days.
   */
  lemma PassIsGrantedIff(l: Ledger, steps: seq<LedgerStep>, k: nat)
    requires l.history == [] && l.gate.spends == [] && l.gate.allowance <= PASS_SLOTS
    requires AllInOrder(l, steps) && k < |steps| && steps[k].Attempt?
    ensures var before, allowance := AfterAll(l, steps[..k]), LeastAllowance(l.gate.allowance, steps[..k]);
      var r := SpendPass(before.gate, steps[k].id, steps[k].date, steps[k].nowS);
      var used := SpentInTheWeek(AfterAll(l, steps[..k + 1]), steps[k].nowS);
      && Succeeds(before, steps[k]) == r.ok
      && (r.ok <==> Has(l.gate.sched, steps[k].id) && SpentInTheWeek(before, steps[k].nowS) < allowance)
      && used == SpentInTheWeek(before, steps[k].nowS) + (if r.ok then 1 else 0)
      && r.remaining == if used < allowance then allowance - used else 0
  {
    hide SpendPass, Has, LeastAllowance, Recent;
    var before := AfterAll(l, steps[..k]);
    EarlierInOrder(l, steps, k);
    RunKeepsExact(l, steps[..k]);
    AllowanceIsLeast(l, steps[..k]);
    SameIdsStored(l, steps[..k], steps[k].id);
    assert InOrder(before, steps[k]);
    AttemptIsDecided(before, steps[k].id, steps[k].date, steps[k].nowS);
    assert steps[..k + 1][..k] == steps[..k];
    SinceAppended(before.history, steps[k].nowS - PASS_WINDOW_S, Spend(steps[k].nowS, steps[k].nowS));
  }
}
