/**
 What a pass of the main loop does: when it polls, what the poll decides, and what it feeds the alarm.
 */
module LoopActs {
  import opened Machine
  import opened Events
  import opened Proximity
  import opened Enforcement
  import opened EnforcementSafety
  import opened EnforcementActs
  import opened MainLoop
  import Profiles

  // ---------------------------------------------------------------------------
  // The poll
  // ---------------------------------------------------------------------------

  /**
   Once a pass is past its poll, an enforcing watch has polled less than one interval ago and owes no forced
   poll; and the poll was taken only where one was owed or the interval since the last had run out.
   */
  lemma PollsAreOnTime(l: Loop, p: Pass)
    requires Safe(l.ctx)
    ensures var q := Polled(l, p);
      && (q.ctx.state == Enforcing ==> !q.forcePoll && p.nowMs - q.lastPollMs < PollIntervalS(q.ctx) * 1000)
      && (q.lastPollMs != l.lastPollMs ==>
            && q.lastPollMs == p.nowMs && l.ctx.state == Enforcing
            && (l.forcePoll || p.nowMs - l.lastPollMs >= PollIntervalS(l.ctx) * 1000))
  {
    hide Safe, After, PollCalls;
  }

  /**
   A poll ends in a check: in a window of any criterion but phoneAway, the commitment is met afterwards exactly
   in the donning grace or when the criterion holds of what was measured.
   */
  lemma PollJudges(l: Loop, p: Pass)
    requires Safe(l.ctx) && PollIsDue(l.ctx, l.forcePoll, l.lastPollMs, p)
    requires l.ctx.active.Some? && l.ctx.active.value.criteria != CRIT_PHONE_AWAY
    ensures var d := Polled(l, p).ctx;
      && d.active == l.ctx.active
      && d.conditionMet == (InDonningGrace(d, p.utc) || CriterionHolds(d, l.ctx.active.value, p.utc, false, None, true))
      && (IsAnchorBased(l.ctx.active.value.criteria) && !p.pollObs.known ==> d.prox == Ingested(l.ctx.prox, p.measurement))
  {
    hide Safe, After, Ingested, CriterionMet, SsidMatches, Profiles.Started, Profiles.Stopped;
    var c, check := l.ctx, Check(p.utc, false, None, true);
    NoMoreCalls(c);
    var sensed := if IsAnchorBased(c.active.value.criteria) then [if p.pollObs.known then PollAbstain else Measure(p.measurement)] else [];
    if sensed != [] {
      OneCall(c, sensed[0]);
      assert sensed == [sensed[0]];
    }
    AfterConcat(c, sensed, [check]);
    OneCall(After(c, sensed), check);
  }

  /** A window is polled, and so judged, in the pass it begins in. */
  lemma NewWindowIsPolled(l: Loop, p: Pass)
    requires Safe(l.ctx) && p.refresh.Began?
    ensures var r := Refreshed(l, p);
      && r.ctx == Enter(l.ctx, p.refresh.e, p.utc, l.ctx.worn)
      && PollIsDue(r.ctx, r.forcePoll, r.lastPollMs, p)
      && Polled(r, p).lastPollMs == p.nowMs
  {
    hide Safe, After, PollCalls, Initial;
    OneCall(l.ctx, EnterWindow(p.refresh.e, p.utc, l.ctx.worn));
  }

  /** The worn sensor's edge forces a poll on the next pass. */
  lemma WearingForcesAPoll(l: Loop, p: Pass, next: Pass)
    requires Safe(l.ctx) && p.wornChange.Some? && next.refresh.Same?
    ensures var s := Sensed(l, p);
      && s.ctx.worn == p.wornChange.value
      && (s.ctx.state == Enforcing ==> Polled(Refreshed(s, next), next).lastPollMs == next.nowMs)
  {
    hide Safe, After, PollCalls;
    OneCall(l.ctx, Wear(p.wornChange.value, p.utc));
    NoMoreCalls(Sensed(l, p).ctx);
  }

  // ---------------------------------------------------------------------------
  // The alarm's clock
  // ---------------------------------------------------------------------------

  lemma {:induction false} TicksOfConcat(a: seq<Entry>, b: seq<Entry>)
    ensures TicksFrom(a + b, 0) == TicksFrom(a, 0) + TicksFrom(b, 0)
    decreases |b|
  {
    if b == [] {
      assert a + b == a;
    } else {
      assert (a + b)[..|a + b| - 1] == a + b[..|b| - 1];
      TicksOfConcat(a, b[..|b| - 1]);
    }
  }

  lemma TicksOfOne(h: Entry)
    ensures TicksFrom([h], 0) == TickOf(h)
  {
    assert [h][..0] == [];
  }

  lemma TicksOfOutput(p: Pass)
    ensures TicksFrom(OutputCalls(p), 0) == [p.dt]
  {
    var b, k, t := BurstUpdate(Some(p.obs), p.nowMs, p.utc), LinkUpdate(Some(p.obs), p.nowMs, p.utc), Tick(p.dt);
    TicksOfOne(b);
    TicksOfOne(k);
    TicksOfOne(t);
    TicksOfConcat([b], [k]);
    TicksOfConcat([b, k], [t]);
    assert [b] + [k] == [b, k] && [b, k] + [t] == OutputCalls(p);
  }

  lemma {:induction false} NoTicksIn(hs: seq<Entry>)
    requires forall i :: 0 <= i < |hs| ==> !hs[i].Tick?
    ensures TicksFrom(hs, 0) == []
  {
    if hs != [] {
      NoTicksIn(hs[..|hs| - 1]);
    }
  }

  /** A pass that enforces once its poll is done ticks the alarm once, by its own time; any other pass not at all. */
  lemma PassTicksOnce(l: Loop, p: Pass)
    requires Safe(l.ctx)
    ensures TicksFrom(Calls(l, p), 0) == if Polled(Refreshed(l, p), p).ctx.state == Enforcing then [p.dt] else []
  {
    hide Safe, After, TicksFrom, OutputCalls, PollIsDue, Polled, Refreshed;
    var r := Refreshed(l, p);
    var q := Polled(r, p);
    var a, w := RefreshCalls(l.ctx, p), WornCalls(p);
    var b := if PollIsDue(r.ctx, r.forcePoll, r.lastPollMs, p) then PollCalls(r.ctx, p) else [];
    var o := if q.ctx.state == Enforcing then OutputCalls(p) else [];
    NoTicksIn(a);
    NoTicksIn(b);
    NoTicksIn(w);
    NoTicksIn([]);
    TicksOfOutput(p);
    TicksOfConcat(a, b);
    TicksOfConcat(a + b, o);
    TicksOfConcat(a + b + o, w);
  }
}
