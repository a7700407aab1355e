/**
 The near/away verdict: hysteresis, dwell and abstention.
 */
module Proximity {
  import opened Machine
  import opened Events

  const NEAR_ENTER_CM: U16 := 200
  const AWAY_ENTER_CM: U16 := 350
  const NEAR_DWELL: U8 := 2
  const AWAY_DWELL: U8 := 4
  const ABSTAIN_MAX_CONSECUTIVE: U8 := 5
  const THRESHOLD_MIN_CM: U16 := 50
  const THRESHOLD_MAX_CM: U16 := 1500

  datatype Verdict = Near | Away

  datatype CsResult = CsOk | FailQuality | FailProcedure | FailConnect | FailDisagree

  datatype Measurement = Measurement(result: CsResult, distanceCm: U32, quality: U8, pbrCm: U32)

  datatype Prox = Prox(
    anchorId: Uuid,
    verdict: Verdict,
    nearRun: U8,
    awayRun: U8,
    abstainRun: U8,
    haveVerdict: bool,
    nearEnterCm: U16,
    awayEnterCm: U16
  )

  // ---------------------------------------------------------------------------
  // The operations as functions
  // ---------------------------------------------------------------------------

  function NearThreshold(nearEnterCm: U16): U16 {
    var near := if nearEnterCm != 0 then nearEnterCm else NEAR_ENTER_CM;
    if near < THRESHOLD_MIN_CM then THRESHOLD_MIN_CM else near
  }

  /** The last line adds in 32 bits and stores in 16. */
  function AwayThreshold(near: U16, awayEnterCm: U16): U16 {
    var away := if awayEnterCm != 0 then awayEnterCm else AWAY_ENTER_CM;
    var clamped := if away > THRESHOLD_MAX_CM then THRESHOLD_MAX_CM else away;
    if clamped <= near then (near + 50) % 0x1_0000 else clamped
  }

  function Initial(anchorId: Option<Uuid>, nearEnterCm: U16, awayEnterCm: U16): Prox {
    var near := NearThreshold(nearEnterCm);
    Prox(if anchorId.Some? then anchorId.value else ZeroUuid(), Away, 0, 0, 0, false, near, AwayThreshold(near, awayEnterCm))
  }

  function Bump(n: U8): U8 {
    if n < U8_MAX then n + 1 else n
  }

  function Ingested(p: Prox, m: Measurement): Prox {
    if m.result != CsOk then p.(abstainRun := Bump(p.abstainRun))
    else if m.distanceCm < p.nearEnterCm then
      var run := Bump(p.nearRun);
      p.(abstainRun := 0, awayRun := 0, nearRun := run,
         verdict := if run >= NEAR_DWELL then Near else p.verdict,
         haveVerdict := p.haveVerdict || run >= NEAR_DWELL)
    else if m.distanceCm > p.awayEnterCm then
      var run := Bump(p.awayRun);
      p.(abstainRun := 0, nearRun := 0, awayRun := run,
         verdict := if run >= AWAY_DWELL then Away else p.verdict,
         haveVerdict := p.haveVerdict || run >= AWAY_DWELL)
    else
      p.(abstainRun := 0, nearRun := 0, awayRun := 0)
  }

  function ForcedAway(p: Prox): Prox {
    p.(verdict := Away, haveVerdict := true, nearRun := 0, awayRun := 0, abstainRun := 0)
  }

  predicate InFailsafe(p: Prox) {
    p.abstainRun > ABSTAIN_MAX_CONSECUTIVE
  }

  predicate CriterionMet(p: Prox, criterion: U8) {
    if InFailsafe(p) || !p.haveVerdict then criterion != CRIT_STAY_NEAR
    else if criterion == CRIT_STAY_NEAR then p.verdict == Near
    else if criterion == CRIT_GET_AWAY || criterion == CRIT_PHONE_AWAY then p.verdict != Near
    else true
  }

  // ---------------------------------------------------------------------------
  // The state as the firmware keeps it
  // ---------------------------------------------------------------------------

  class ProxState {
    var anchorId: Uuid
    var verdict: Verdict
    var nearRun: U8
    var awayRun: U8
    var abstainRun: U8
    var haveVerdict: bool
    var nearEnterCm: U16
    var awayEnterCm: U16

    function View(): Prox
      reads this
    {
      Prox(anchorId, verdict, nearRun, awayRun, abstainRun, haveVerdict, nearEnterCm, awayEnterCm)
    }

    constructor ()
      ensures View() == Prox(ZeroUuid(), Near, 0, 0, 0, false, 0, 0)
    {
      anchorId, verdict := ZeroUuid(), Near;
      nearRun, awayRun, abstainRun, haveVerdict := 0, 0, 0, false;
      nearEnterCm, awayEnterCm := 0, 0;
    }

    method Init(id: Option<Uuid>, near: U16, away: U16)
      modifies this
      ensures View() == Initial(id, near, away)
    {
      anchorId := if id.Some? then id.value else ZeroUuid();
      nearRun, awayRun, abstainRun := 0, 0, 0;
      nearEnterCm := if near != 0 then near else NEAR_ENTER_CM;
      awayEnterCm := if away != 0 then away else AWAY_ENTER_CM;
      if nearEnterCm < THRESHOLD_MIN_CM {
        nearEnterCm := THRESHOLD_MIN_CM;
      }
      if awayEnterCm > THRESHOLD_MAX_CM {
        awayEnterCm := THRESHOLD_MAX_CM;
      }
      if awayEnterCm <= nearEnterCm {
        awayEnterCm := (nearEnterCm + 50) % 0x1_0000;
      }
      verdict, haveVerdict := Away, false;
    }

    method Ingest(m: Measurement)
      modifies this
      ensures View() == Ingested(old(View()), m)
    {
      if m.result != CsOk {
        if abstainRun < U8_MAX {
          abstainRun := abstainRun + 1;
        }
        return;
      }
      abstainRun := 0;
      if m.distanceCm < nearEnterCm {
        awayRun := 0;
        if nearRun < U8_MAX {
          nearRun := nearRun + 1;
        }
        if nearRun >= NEAR_DWELL {
          verdict, haveVerdict := Near, true;
        }
      } else if m.distanceCm > awayEnterCm {
        nearRun := 0;
        if awayRun < U8_MAX {
          awayRun := awayRun + 1;
        }
        if awayRun >= AWAY_DWELL {
          verdict, haveVerdict := Away, true;
        }
      } else {
        nearRun, awayRun := 0, 0;
      }
    }

    method ForceAway()
      modifies this
      ensures View() == ForcedAway(old(View()))
    {
      verdict, haveVerdict := Away, true;
      nearRun, awayRun, abstainRun := 0, 0, 0;
    }
  }

  // ---------------------------------------------------------------------------
  // Thresholds
  // ---------------------------------------------------------------------------

  /**
   The hysteresis band is never empty or inverted exactly when the override is at most 65485 cm; above
   that the 16-bit sum wraps. The defaults the firmware passes (0, 0) are always safe.
   */
  lemma BandIsOpenIff(id: Option<Uuid>, near: U16, away: U16)
    ensures Initial(id, near, away).nearEnterCm < Initial(id, near, away).awayEnterCm <==> near <= 65485
    ensures Initial(id, near, away).nearEnterCm >= THRESHOLD_MIN_CM
    ensures near <= THRESHOLD_MAX_CM - 50 ==> Initial(id, near, away).awayEnterCm <= THRESHOLD_MAX_CM
  {
  }

  /** An override for which the band does invert. */
  lemma BandCanInvert()
    ensures Initial(None, 65500, 0).awayEnterCm < Initial(None, 65500, 0).nearEnterCm
  {
  }

  // ---------------------------------------------------------------------------
  // Abstentions are no evidence
  // ---------------------------------------------------------------------------

  function IngestAll(p: Prox, ms: seq<Measurement>): Prox {
    if ms == [] then p else Ingested(IngestAll(p, ms[..|ms| - 1]), ms[|ms| - 1])
  }

  /** The measurements that are not abstentions, in order. */
  function Readings(ms: seq<Measurement>): (r: seq<Measurement>)
    ensures forall i :: 0 <= i < |r| ==> r[i].result == CsOk
  {
    if ms == [] then []
    else if ms[|ms| - 1].result == CsOk then Readings(ms[..|ms| - 1]) + [ms[|ms| - 1]]
    else Readings(ms[..|ms| - 1])
  }

  function TrailingAbstentions(ms: seq<Measurement>): nat {
    if ms == [] || ms[|ms| - 1].result == CsOk then 0 else 1 + TrailingAbstentions(ms[..|ms| - 1])
  }

  /** Verdict, dwell and thresholds are those of the sequence with all abstentions deleted. */
  lemma {:induction false} AbstentionsAreErased(p: Prox, ms: seq<Measurement>)
    ensures IngestAll(p, ms).(abstainRun := 0) == IngestAll(p, Readings(ms)).(abstainRun := 0)
  {
    if ms != [] {
      var front, last := ms[..|ms| - 1], ms[|ms| - 1];
      AbstentionsAreErased(p, front);
      if last.result == CsOk {
        assert (Readings(front) + [last])[..|Readings(front)|] == Readings(front);
      }
    }
  }

  /** ... and only the count of trailing abstentions remembers them. */
  lemma {:induction false} AbstainRunCounts(p: Prox, ms: seq<Measurement>)
    requires p.abstainRun == 0
    ensures IngestAll(p, ms).abstainRun == Saturate(TrailingAbstentions(ms), U8_MAX)
  {
    if ms != [] {
      AbstainRunCounts(p, ms[..|ms| - 1]);
    }
  }

  // ---------------------------------------------------------------------------
  // A verdict needs a run of evidence
  // ---------------------------------------------------------------------------

  predicate IsNear(m: Measurement, p: Prox) { m.distanceCm < p.nearEnterCm }

  predicate IsAway(m: Measurement, p: Prox) { !IsNear(m, p) && m.distanceCm > p.awayEnterCm }

  function NearTail(p: Prox, r: seq<Measurement>): nat {
    if r == [] || !IsNear(r[|r| - 1], p) then 0 else 1 + NearTail(p, r[..|r| - 1])
  }

  function AwayTail(p: Prox, r: seq<Measurement>): nat {
    if r == [] || !IsAway(r[|r| - 1], p) then 0 else 1 + AwayTail(p, r[..|r| - 1])
  }

  /** The verdict a sequence of readings earns: the last moment a long enough run was complete decides. */
  function Earned(p: Prox, r: seq<Measurement>): Option<Verdict> {
    if r == [] then None
    else if NearTail(p, r) >= NEAR_DWELL then Some(Near)
    else if AwayTail(p, r) >= AWAY_DWELL then Some(Away)
    else Earned(p, r[..|r| - 1])
  }

  predicate Fresh(p: Prox) {
    p.nearRun == 0 && p.awayRun == 0 && p.abstainRun == 0 && !p.haveVerdict && p.verdict == Away
  }

  lemma {:induction false} ReadingsEarnTheVerdict(p: Prox, r: seq<Measurement>)
    requires Fresh(p)
    requires forall i :: 0 <= i < |r| ==> r[i].result == CsOk
    ensures var q := IngestAll(p, r);
      && q.nearEnterCm == p.nearEnterCm && q.awayEnterCm == p.awayEnterCm
      && q.nearRun == Saturate(NearTail(p, r), U8_MAX) && q.awayRun == Saturate(AwayTail(p, r), U8_MAX)
      && q.haveVerdict == Earned(p, r).Some?
      && q.verdict == (if Earned(p, r).Some? then Earned(p, r).value else Away)
  {
    if r != [] {
      ReadingsEarnTheVerdict(p, r[..|r| - 1]);
    }
  }

  /** For every sequence of measurements: the verdict is the one its readings earn, abstentions or not. */
  lemma VerdictIsEarned(p: Prox, ms: seq<Measurement>)
    requires Fresh(p)
    ensures var q := IngestAll(p, ms);
      && q.haveVerdict == Earned(p, Readings(ms)).Some?
      && q.verdict == (if q.haveVerdict then Earned(p, Readings(ms)).value else Away)
      && q.abstainRun == Saturate(TrailingAbstentions(ms), U8_MAX)
  {
    AbstentionsAreErased(p, ms);
    ReadingsEarnTheVerdict(p, Readings(ms));
    AbstainRunCounts(p, ms);
  }

  /** Where a window starts without overrides: nearer than 2 m is near, farther than 3.5 m is away, nothing known yet. */
  lemma DefaultBand(anchorId: Option<Uuid>, cm: U32, quality: U8, pbrCm: U32)
    ensures var p, m := Initial(anchorId, 0, 0), Measurement(CsOk, cm, quality, pbrCm);
      Fresh(p) && (IsNear(m, p) <==> cm < 200) && (IsAway(m, p) <==> cm > 350)
  {
  }

  /** Nothing to go by: more than five failures in a row, or no verdict earned yet. */
  predicate Blind(p: Prox, ms: seq<Measurement>) {
    TrailingAbstentions(ms) > ABSTAIN_MAX_CONSECUTIVE || Earned(p, Readings(ms)) == None
  }

  /** What the three ranging criteria answer after any measurements: AWAY or blindness, NEAR, and anything but NEAR. */
  lemma CriteriaAreEarned(p: Prox, ms: seq<Measurement>)
    requires Fresh(p)
    ensures var q, v := IngestAll(p, ms), Earned(p, Readings(ms));
      && (CriterionMet(q, CRIT_GET_AWAY) <==> Blind(p, ms) || v == Some(Away))
      && (CriterionMet(q, CRIT_STAY_NEAR) <==> !Blind(p, ms) && v == Some(Near))
      && (CriterionMet(q, CRIT_PHONE_AWAY) <==> Blind(p, ms) || v == Some(Away))
      && (InFailsafe(q) || !q.haveVerdict <==> Blind(p, ms))
  {
    hide IngestAll, Earned, Readings, TrailingAbstentions;
    VerdictIsEarned(p, ms);
  }

  function Opposite(v: Verdict): Verdict {
    if v == Near then Away else Near
  }

  ghost predicate RunEndsAt(p: Prox, r: seq<Measurement>, v: Verdict, n: nat)
    requires n <= |r|
  {
    && n >= (if v == Near then NEAR_DWELL else AWAY_DWELL)
    && forall i :: n - (if v == Near then NEAR_DWELL else AWAY_DWELL) <= i < n ==>
         if v == Near then IsNear(r[i], p) else IsAway(r[i], p)
  }

  /** An earned NEAR has two consecutive near readings behind it, an earned AWAY four far ones, and no later opposite run. */
  lemma {:induction false} EarnedHasEvidence(p: Prox, r: seq<Measurement>) returns (n: nat)
    requires Earned(p, r).Some?
    ensures n <= |r| && RunEndsAt(p, r, Earned(p, r).value, n)
    ensures forall k :: n < k <= |r| ==> !RunEndsAt(p, r, Opposite(Earned(p, r).value), k)
  {
    var front := r[..|r| - 1];
    if NearTail(p, r) >= NEAR_DWELL || AwayTail(p, r) >= AWAY_DWELL {
      n := |r|;
      TailsAreRuns(p, r);
    } else {
      n := EarnedHasEvidence(p, front);
      var other := Opposite(Earned(p, r).value);
      forall k | n < k <= |r|
        ensures !RunEndsAt(p, r, other, k)
      {
        if k < |r| {
          assert !RunEndsAt(p, front, other, k);
        } else {
          TailsAreRuns(p, r);
        }
      }
    }
  }

  lemma TailsAreRuns(p: Prox, r: seq<Measurement>)
    ensures NearTail(p, r) >= NEAR_DWELL <==> RunEndsAt(p, r, Near, |r|)
    ensures AwayTail(p, r) >= AWAY_DWELL <==> RunEndsAt(p, r, Away, |r|)
  {
    TailLengths(p, r, NEAR_DWELL);
    TailLengths(p, r, AWAY_DWELL);
  }

  lemma {:induction false} TailLengths(p: Prox, r: seq<Measurement>, n: nat)
    ensures NearTail(p, r) >= n <==> n <= |r| && forall i :: |r| - n <= i < |r| ==> IsNear(r[i], p)
    ensures AwayTail(p, r) >= n <==> n <= |r| && forall i :: |r| - n <= i < |r| ==> IsAway(r[i], p)
  {
    if n > 0 && r != [] {
      var front := r[..|r| - 1];
      TailLengths(p, front, n - 1);
      assert forall i :: 0 <= i < |front| ==> front[i] == r[i];
    }
  }

  // ---------------------------------------------------------------------------
  // Blocking the radio pays in neither direction
  // ---------------------------------------------------------------------------

  lemma {:induction false} AbstainingTail(ms: seq<Measurement>, gap: seq<Measurement>)
    requires forall i :: 0 <= i < |gap| ==> gap[i].result != CsOk
    ensures TrailingAbstentions(ms + gap) >= |gap|
  {
    if gap == [] {
      assert ms + gap == ms;
    } else {
      AbstainingTail(ms, gap[..|gap| - 1]);
      assert (ms + gap)[..|ms + gap| - 1] == ms + gap[..|gap| - 1];
    }
  }

  /** Whatever was measured before, more than five abstentions in a row fail stayNear and satisfy getAway. */
  lemma SustainedSilenceIsTheFailsafe(p: Prox, ms: seq<Measurement>, gap: seq<Measurement>)
    requires p.abstainRun == 0
    requires |gap| > ABSTAIN_MAX_CONSECUTIVE && forall i :: 0 <= i < |gap| ==> gap[i].result != CsOk
    ensures var q := IngestAll(p, ms + gap);
      InFailsafe(q) && !CriterionMet(q, CRIT_STAY_NEAR) && CriterionMet(q, CRIT_GET_AWAY)
  {
    AbstainingTail(ms, gap);
    AbstainRunCounts(p, ms + gap);
  }
}
