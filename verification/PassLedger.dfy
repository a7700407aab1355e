/**
 The emergency pass: however attempts and allowance changes are interleaved, no seven days ever hold
 more successful spends than the allowance in force.
 */
module PassLedger {
  import opened Machine
  import opened Events
  import opened Integrity

  // ---------------------------------------------------------------------------
  // A ledger against the history of spends
  // ---------------------------------------------------------------------------

  /** A successful spend: the elapsed second the ledger got, and when it really happened on some clock. */
  datatype Spend = Spend(elapsedS: nat, stamp: int)

  /** The ledger is the history with only spends stamped at or before `cutoff` left out. */
  ghost predicate Matches(history: seq<Spend>, ledger: seq<nat>, cutoff: int)
    decreases |history|
  {
    if history == [] then ledger == []
    else
      var last, front := history[|history| - 1], history[..|history| - 1];
      || (ledger != [] && ledger[|ledger| - 1] == last.elapsedS && Matches(front, ledger[..|ledger| - 1], cutoff))
      || (last.stamp <= cutoff && Matches(front, ledger, cutoff))
  }

  /** Spends stamped after `cutoff`. */
  function Recent(history: seq<Spend>, cutoff: int): nat {
    if history == [] then 0
    else Recent(history[..|history| - 1], cutoff) + (if history[|history| - 1].stamp > cutoff then 1 else 0)
  }

  lemma {:induction false} RecentFitsLedger(history: seq<Spend>, ledger: seq<nat>, cutoff: int)
    requires Matches(history, ledger, cutoff)
    ensures Recent(history, cutoff) <= |ledger|
    decreases |history|
  {
    if history != [] {
      var last, front := history[|history| - 1], history[..|history| - 1];
      if last.stamp <= cutoff && Matches(front, ledger, cutoff) {
        RecentFitsLedger(front, ledger, cutoff);
      } else {
        RecentFitsLedger(front, ledger[..|ledger| - 1], cutoff);
      }
    }
  }

  /** Time only passes: what could be left out stays left out. */
  lemma {:induction false} LaterStillMatches(history: seq<Spend>, ledger: seq<nat>, cutoff: int, later: int)
    requires Matches(history, ledger, cutoff) && cutoff <= later
    ensures Matches(history, ledger, later)
    decreases |history|
  {
    if history != [] {
      var last, front := history[|history| - 1], history[..|history| - 1];
      if last.stamp <= cutoff && Matches(front, ledger, cutoff) {
        LaterStillMatches(front, ledger, cutoff, later);
      } else {
        LaterStillMatches(front, ledger[..|ledger| - 1], cutoff, later);
      }
    }
  }

  /** Ageing leaves out a spend only when its stamp has passed the cutoff. */
  ghost predicate AgeingIsSafe(history: seq<Spend>, nowS: nat, cutoff: int) {
    forall i :: 0 <= i < |history| && !Unexpired(history[i].elapsedS, nowS) ==> history[i].stamp <= cutoff
  }

  /** The compaction never drops an unexpired spend. */
  lemma {:induction false} AgedStillMatches(history: seq<Spend>, ledger: seq<nat>, nowS: nat, cutoff: int)
    requires Matches(history, ledger, cutoff) && AgeingIsSafe(history, nowS, cutoff)
    ensures Matches(history, Aged(ledger, nowS), cutoff)
    decreases |history|
  {
    if history != [] {
      var last, front := history[|history| - 1], history[..|history| - 1];
      if last.stamp <= cutoff && Matches(front, ledger, cutoff) {
        AgedStillMatches(front, ledger, nowS, cutoff);
      } else {
        var led := ledger[..|ledger| - 1];
        AgedStillMatches(front, led, nowS, cutoff);
        if Unexpired(last.elapsedS, nowS) {
          assert (Aged(led, nowS) + [last.elapsedS])[..|Aged(led, nowS)|] == Aged(led, nowS);
        } else {
          assert history[|history| - 1].stamp <= cutoff;
        }
      }
    }
  }

  lemma AppendedMatches(history: seq<Spend>, ledger: seq<nat>, cutoff: int, s: Spend)
    requires Matches(history, ledger, cutoff)
    ensures Matches(history + [s], ledger + [s.elapsedS], cutoff)
  {
    assert (history + [s])[..|history|] == history;
    assert (ledger + [s.elapsedS])[..|ledger|] == ledger;
  }

  /** One attempt: the ledger still matches, and a success leaves no more recent spends than the allowance. */
  lemma SpendKeepsLedger(g: Gate, history: seq<Spend>, id: Uuid, date: U32, nowS: nat, cutoff: int, stamp: int)
    requires |g.spends| <= PASS_SLOTS && g.allowance <= PASS_BUDGET_DEFAULT
    requires Matches(history, g.spends, cutoff) && AgeingIsSafe(history, nowS, cutoff)
    ensures var r := SpendPass(g, id, date, nowS); var h := if r.ok then history + [Spend(nowS, stamp)] else history;
      && Matches(h, r.gate.spends, cutoff)
      && |r.gate.spends| <= PASS_SLOTS
      && (r.ok ==> Recent(h, cutoff) <= g.allowance && r.remaining == g.allowance - |r.gate.spends|)
  {
    hide PassNegate, Upserted, Aged, Matches;
    var aged := Aged(g.spends, nowS);
    AgedStillMatches(history, g.spends, nowS, cutoff);
    AppendedMatches(history, aged, cutoff, Spend(nowS, stamp));
    var r := SpendPass(g, id, date, nowS);
    if r.ok {
      RecentFitsLedger(history + [Spend(nowS, stamp)], r.gate.spends, cutoff);
    }
  }

  // ---------------------------------------------------------------------------
  // Runs on one elapsed clock
  // ---------------------------------------------------------------------------

  datatype LedgerStep =
    | Attempt(id: Uuid, date: U32, nowS: nat)
    | Allow(allowance: U8)

  datatype Ledger = Ledger(gate: Gate, history: seq<Spend>, nowS: nat)

  function After(l: Ledger, step: LedgerStep): (next: Ledger)
    requires |l.gate.spends| <= PASS_SLOTS
    ensures |next.gate.spends| <= PASS_SLOTS
  {
    match step
    case Attempt(id, date, nowS) =>
      var r := SpendPass(l.gate, id, date, nowS);
      Ledger(r.gate, if r.ok then l.history + [Spend(nowS, nowS)] else l.history, nowS)
    case Allow(allowance) => l.(gate := SetAllowance(l.gate, allowance))
  }

  ghost predicate LedgerSound(l: Ledger) {
    && |l.gate.spends| <= PASS_SLOTS && l.gate.allowance <= PASS_BUDGET_DEFAULT
    && (forall i :: 0 <= i < |l.history| ==> l.history[i].stamp == l.history[i].elapsedS)
    && Matches(l.history, l.gate.spends, l.nowS - PASS_WINDOW_S)
  }

  predicate InOrder(l: Ledger, step: LedgerStep) {
    step.Attempt? ==> step.nowS >= l.nowS
  }

  /** The spend this step made, if it made one. */
  predicate Succeeds(l: Ledger, step: LedgerStep)
    requires |l.gate.spends| <= PASS_SLOTS
  {
    step.Attempt? && SpendPass(l.gate, step.id, step.date, step.nowS).ok
  }

  lemma LedgerStepIsSound(l: Ledger, step: LedgerStep)
    requires LedgerSound(l) && InOrder(l, step)
    ensures LedgerSound(After(l, step))
    ensures After(l, step).gate.allowance <= l.gate.allowance
    ensures Succeeds(l, step) ==> Recent(After(l, step).history, step.nowS - PASS_WINDOW_S) <= l.gate.allowance
  {
    hide SpendPass, Matches;
    if step.Attempt? {
      var cutoff := step.nowS - PASS_WINDOW_S;
      LaterStillMatches(l.history, l.gate.spends, l.nowS - PASS_WINDOW_S, cutoff);
      SpendKeepsLedger(l.gate, l.history, step.id, step.date, step.nowS, cutoff, step.nowS);
      SpendKeepsAllowance(l.gate, step.id, step.date, step.nowS);
    }
  }

  lemma SpendKeepsAllowance(g: Gate, id: Uuid, date: U32, nowS: nat)
    requires |g.spends| <= PASS_SLOTS
    ensures SpendPass(g, id, date, nowS).gate.allowance == g.allowance
  {
  }

  function AfterAll(l: Ledger, steps: seq<LedgerStep>): (last: Ledger)
    requires |l.gate.spends| <= PASS_SLOTS
    ensures |last.gate.spends| <= PASS_SLOTS
    decreases |steps|
  {
    if steps == [] then l else After(AfterAll(l, steps[..|steps| - 1]), steps[|steps| - 1])
  }

  ghost predicate AllInOrder(l: Ledger, steps: seq<LedgerStep>)
    requires |l.gate.spends| <= PASS_SLOTS
  {
    forall k :: 0 <= k < |steps| ==> InOrder(AfterAll(l, steps[..k]), steps[k])
  }

  lemma {:induction false} LedgerRunIsSound(l: Ledger, steps: seq<LedgerStep>)
    requires LedgerSound(l) && AllInOrder(l, steps)
    ensures LedgerSound(AfterAll(l, steps))
    decreases |steps|
  {
    hide After, Matches;
    if steps != [] {
      var front := steps[..|steps| - 1];
      forall k | 0 <= k < |front|
        ensures InOrder(AfterAll(l, front[..k]), front[k])
      {
        assert front[..k] == steps[..k];
      }
      LedgerRunIsSound(l, front);
      assert InOrder(AfterAll(l, steps[..|steps| - 1]), steps[|steps| - 1]);
      LedgerStepIsSound(AfterAll(l, front), steps[|steps| - 1]);
    }
  }

  /**
   At every successful spend of every run, the successful spends of the seven days up to it, itself
   included, number at most the allowance in force.
   */
  lemma NeverOverAllowance(l: Ledger, steps: seq<LedgerStep>, k: nat)
    requires LedgerSound(l) && AllInOrder(l, steps) && k < |steps|
    ensures LedgerSound(AfterAll(l, steps[..k]))
    ensures var before := AfterAll(l, steps[..k]);
      Succeeds(before, steps[k]) ==>
        Recent(After(before, steps[k]).history, steps[k].nowS - PASS_WINDOW_S) <= before.gate.allowance
  {
    hide After, Succeeds, InOrder;
    forall j | 0 <= j < k
      ensures InOrder(AfterAll(l, steps[..k][..j]), steps[..k][j])
    {
      assert steps[..k][..j] == steps[..j];
    }
    LedgerRunIsSound(l, steps[..k]);
    LedgerStepIsSound(AfterAll(l, steps[..k]), steps[k]);
  }
}
