/**
 One burst of channel-sounding procedures reduced to one measurement.
 */
module CsFuse {
  import opened Machine
  import opened InsertionSort
  import opened Proximity

  const IFFT_SLOPE_Q8 := 254
  const IFFT_OFFSET_CM := 72
  const NEAR_FIELD_CM := 55
  const PS_SLOPE_Q8 := 234
  const PS_OFFSET_CM := 197
  const RTT_SLOPE_Q8 := 266
  const RTT_OFFSET_CM := 278
  const PS_DIVERGENCE_MAX_CM := 250
  const RELAY_MARGIN_CM := 400
  const MIN_VALID_CM := 5
  const MAX_VALID_CM := 3000
  const BURST_MAX := 24
  const BURST_MIN_ACCEPTED := 10

  const WRAP: int := 0x1_0000_0000

  datatype Raw = Raw(ifftCm: U32, phaseSlopeCm: U32, rttCm: U32, hasIfft: bool, hasPhaseSlope: bool, hasRtt: bool)

  /** 32-bit arithmetic, as in C. */
  function ExpectedCm(ifftCm: U32, slopeQ8: U32, offsetCm: U32): U32 {
    (((ifftCm * slopeQ8) % WRAP) / 256 + offsetCm) % WRAP
  }

  function AbsDiff(a: U32, b: U32): U32 {
    if a > b then a - b else b - a
  }

  datatype Fate = Accepted | MissingIfft | OutOfRange | PoorQuality | SuspectRelay

  /** What happens to one procedure's estimates. */
  function FateOf(r: Raw): Fate {
    if !r.hasIfft then MissingIfft
    else if r.ifftCm < MIN_VALID_CM || r.ifftCm > MAX_VALID_CM then OutOfRange
    else if r.hasPhaseSlope && AbsDiff(r.phaseSlopeCm, ExpectedCm(r.ifftCm, PS_SLOPE_Q8, PS_OFFSET_CM)) > PS_DIVERGENCE_MAX_CM
      then PoorQuality
    else if r.hasRtt && r.rttCm > (ExpectedCm(r.ifftCm, RTT_SLOPE_Q8, RTT_OFFSET_CM) + RELAY_MARGIN_CM) % WRAP then SuspectRelay
    else Accepted
  }

  function Count(raws: seq<Raw>, f: Fate): nat {
    if raws == [] then 0
    else Count(raws[..|raws| - 1], f) + (if FateOf(raws[|raws| - 1]) == f then 1 else 0)
  }

  /** The accepted estimates in order of arrival. */
  function AcceptedCm(raws: seq<Raw>): (cm: seq<U32>)
    ensures forall i :: 0 <= i < |cm| ==> MIN_VALID_CM <= cm[i] <= MAX_VALID_CM
  {
    if raws == [] then []
    else if FateOf(raws[|raws| - 1]) == Accepted then AcceptedCm(raws[..|raws| - 1]) + [raws[|raws| - 1].ifftCm]
    else AcceptedCm(raws[..|raws| - 1])
  }

  /** The burst keeps the first 24 accepted estimates. */
  function Stored(raws: seq<Raw>): (cm: seq<U32>)
    ensures |cm| <= BURST_MAX
    ensures forall i :: 0 <= i < |cm| ==> MIN_VALID_CM <= cm[i] <= MAX_VALID_CM
  {
    var all := AcceptedCm(raws);
    if |all| > BURST_MAX then all[..BURST_MAX] else all
  }

  // ---------------------------------------------------------------------------
  // The median
  // ---------------------------------------------------------------------------

  /** Estimates sort by their value. */
  function Cm(x: U32): int { x }

  function Median(s: seq<U32>): U32
    requires s != []
  {
    var t := Sort(s, Cm);
    SortedRange(s);
    if |s| % 2 == 1 then t[|s| / 2] else ((t[|s| / 2 - 1] + t[|s| / 2]) % WRAP) / 2
  }

  lemma SortedRange(s: seq<U32>)
    ensures forall i :: 0 <= i < |s| ==> 0 <= Sort(s, Cm)[i] < WRAP && Sort(s, Cm)[i] in s
  {
    var t := Sort(s, Cm);
    forall i | 0 <= i < |t|
      ensures t[i] in s
    {
      SortMembers(s, Cm, t[i]);
    }
  }

  function Calibrated(raw: U32): U32 {
    if raw <= NEAR_FIELD_CM then 0
    else if raw <= IFFT_OFFSET_CM then 0
    else (((raw - IFFT_OFFSET_CM) * 256) % WRAP) / IFFT_SLOPE_Q8
  }

  function Failed(r: CsResult): Measurement {
    Measurement(r, 0, 0, 0)
  }

  /** The measurement a burst stands for, in terms of the procedures it was made of. */
  function Finished(raws: seq<Raw>): Measurement {
    var cm := Stored(raws);
    var relays, poor := Saturate(Count(raws, SuspectRelay), U8_MAX), Saturate(Count(raws, PoorQuality), U8_MAX);
    if relays > 0 && relays >= |cm| then Failed(FailDisagree)
    else if |cm| < BURST_MIN_ACCEPTED then Failed(if poor > |cm| then FailQuality else FailProcedure)
    else Measurement(CsOk, Calibrated(Median(cm)), |cm|, Median(cm))
  }

  class Burst {
    const ifftCm: array<U32>
    var count: U8
    var rejectedRange: U8
    var rejectedQuality: U8
    var suspectRelay: U8
    var missingIfft: U8
    /** Everything added so far. */
    ghost var added: seq<Raw>

    ghost predicate Valid()
      reads this, ifftCm
    {
      && ifftCm.Length == BURST_MAX && count <= BURST_MAX
      && ifftCm[..count] == Stored(added)
      && rejectedRange == Saturate(Count(added, OutOfRange), U8_MAX)
      && rejectedQuality == Saturate(Count(added, PoorQuality), U8_MAX)
      && suspectRelay == Saturate(Count(added, SuspectRelay), U8_MAX)
      && missingIfft == Saturate(Count(added, MissingIfft), U8_MAX)
    }

    constructor ()
      ensures Valid() && added == [] && fresh(ifftCm)
    {
      ifftCm := new U32[BURST_MAX](_ => 0);
      count, rejectedRange, rejectedQuality, suspectRelay, missingIfft := 0, 0, 0, 0, 0;
      added := [];
    }

    method Add(raw: Raw) returns (accepted: bool)
      requires Valid()
      modifies this, ifftCm
      ensures Valid() && added == old(added) + [raw]
      ensures accepted <==> FateOf(raw) == Accepted
    {
      hide Count, Stored, ExpectedCm, AbsDiff;
      TalliesGrow(added, raw);
      StoredGrows(added, raw);
      added := added + [raw];
      if !raw.hasIfft {
        if missingIfft < U8_MAX {
          missingIfft := missingIfft + 1;
        }
        return false;
      }
      if raw.ifftCm < MIN_VALID_CM || raw.ifftCm > MAX_VALID_CM {
        if rejectedRange < U8_MAX {
          rejectedRange := rejectedRange + 1;
        }
        return false;
      }
      if raw.hasPhaseSlope {
        var want := ExpectedCm(raw.ifftCm, PS_SLOPE_Q8, PS_OFFSET_CM);
        if AbsDiff(raw.phaseSlopeCm, want) > PS_DIVERGENCE_MAX_CM {
          if rejectedQuality < U8_MAX {
            rejectedQuality := rejectedQuality + 1;
          }
          return false;
        }
      }
      if raw.hasRtt {
        var want := ExpectedCm(raw.ifftCm, RTT_SLOPE_Q8, RTT_OFFSET_CM);
        if raw.rttCm > (want + RELAY_MARGIN_CM) % WRAP {
          if suspectRelay < U8_MAX {
            suspectRelay := suspectRelay + 1;
          }
          return false;
        }
      }
      if count < BURST_MAX {
        ghost var before := ifftCm[..count];
        ifftCm[count] := raw.ifftCm;
        count := count + 1;
        assert ifftCm[..count] == before + [raw.ifftCm];
      }
      return true;
    }

    /** Sorts a copy: the burst itself is left as it is. */
    method SortedCopy() returns (tmp: array<U32>)
      requires Valid()
      ensures fresh(tmp) && tmp.Length == BURST_MAX
      ensures tmp[..count] == Sort(Stored(added), Cm)
    {
      hide Sort, Stored, Count;
      tmp := new U32[BURST_MAX](_ => 0);
      forall i | 0 <= i < count {
        tmp[i] := ifftCm[i];
      }
      assert tmp[..count] == Stored(added);
      SortInPlace(tmp, count, Cm);
    }

    method MedianOf() returns (m: U32)
      requires Valid() && count > 0
      ensures m == Median(Stored(added))
    {
      hide Sort, Stored, Count;
      var tmp := SortedCopy();
      var n := count;
      SortedRange(Stored(added));
      assert forall i :: 0 <= i < n ==> tmp[i] == tmp[..n][i];
      if n % 2 == 1 {
        return tmp[n / 2];
      }
      return ((tmp[n / 2 - 1] + tmp[n / 2]) % WRAP) / 2;
    }

    method Finish() returns (m: Measurement)
      requires Valid()
      ensures m == Finished(added)
    {
      hide Median, Calibrated, Stored, Count;
      if suspectRelay > 0 && suspectRelay >= count {
        return Failed(FailDisagree);
      }
      if count < BURST_MIN_ACCEPTED {
        return Failed(if rejectedQuality > count then FailQuality else FailProcedure);
      }
      var raw := MedianOf();
      return Measurement(CsOk, Calibrated(raw), count, raw);
    }
  }

  lemma StoredGrows(raws: seq<Raw>, r: Raw)
    ensures Stored(raws + [r])
         == if FateOf(r) == Accepted && |Stored(raws)| < BURST_MAX then Stored(raws) + [r.ifftCm] else Stored(raws)
  {
    assert (raws + [r])[..|raws|] == raws;
  }

  lemma TalliesGrow(raws: seq<Raw>, r: Raw)
    ensures forall f :: Count(raws + [r], f) == Count(raws, f) + (if FateOf(r) == f then 1 else 0)
  {
    assert (raws + [r])[..|raws|] == raws;
  }

  // ---------------------------------------------------------------------------
  // The median is robust
  // ---------------------------------------------------------------------------

  /** Arrival order does not matter. */
  lemma MedianIgnoresOrder(a: seq<U32>, b: seq<U32>)
    requires a != [] && multiset(a) == multiset(b)
    ensures |a| == |b| && Median(a) == Median(b)
  {
    hide Sort, SortedBy;
    SameLength(a, b);
    SortSorts(a, Cm);
    SortSorts(b, Cm);
    SortedIsUnique(Sort(a, Cm), Sort(b, Cm), Cm);
  }

  /** How many values lie in [lo, hi]. */
  function Within(s: seq<U32>, lo: int, hi: int): nat {
    if s == [] then 0
    else Within(s[..|s| - 1], lo, hi) + (if lo <= s[|s| - 1] <= hi then 1 else 0)
  }

  lemma {:induction false} WithinOfMultiset(a: seq<U32>, b: seq<U32>, lo: int, hi: int)
    requires multiset(a) == multiset(b)
    ensures Within(a, lo, hi) == Within(b, lo, hi)
    decreases |a|
  {
    if a == [] {
      assert |multiset(b)| == |b|;
    } else {
      var k := PlaceOfLast(a, b);
      WithinRemoves(b, k, lo, hi);
      WithinOfMultiset(a[..|a| - 1], b[..k] + b[k + 1..], lo, hi);
    }
  }

  lemma {:induction false} WithinOfConcat(a: seq<U32>, b: seq<U32>, lo: int, hi: int)
    ensures Within(a + b, lo, hi) == Within(a, lo, hi) + Within(b, lo, hi)
  {
    if b == [] {
      assert a + b == a;
    } else {
      assert (a + b)[..|a + b| - 1] == a + b[..|b| - 1];
      WithinOfConcat(a, b[..|b| - 1], lo, hi);
    }
  }

  lemma WithinOne(x: U32, lo: int, hi: int)
    ensures Within([x], lo, hi) == if lo <= x <= hi then 1 else 0
  {
    assert [x][..0] == [];
  }

  lemma WithinRemoves(b: seq<U32>, k: nat, lo: int, hi: int)
    requires k < |b|
    ensures Within(b, lo, hi) == Within(b[..k] + b[k + 1..], lo, hi) + (if lo <= b[k] <= hi then 1 else 0)
  {
    hide Within;
    var front, x, back := b[..k], [b[k]], b[k + 1..];
    assert b == front + x + back;
    WithinOne(b[k], lo, hi);
    WithinOfConcat(front + x, back, lo, hi);
    WithinOfConcat(front, x, lo, hi);
    WithinOfConcat(front, back, lo, hi);
  }

  lemma {:induction false} NoneWithin(s: seq<U32>, lo: int, hi: int)
    requires forall i :: 0 <= i < |s| ==> !(lo <= s[i] <= hi)
    ensures Within(s, lo, hi) == 0
  {
    if s != [] {
      NoneWithin(s[..|s| - 1], lo, hi);
    }
  }

  lemma {:induction false} WithinBound(s: seq<U32>, lo: int, hi: int)
    ensures Within(s, lo, hi) <= |s|
  {
    if s != [] {
      WithinBound(s[..|s| - 1], lo, hi);
    }
  }

  /** In sorted order, a value outside [lo, hi] leaves everything in the range to one side of it. */
  lemma TooLow(t: seq<U32>, k: nat, lo: int, hi: int)
    requires SortedBy(t, Cm) && k < |t| && t[k] < lo
    ensures Within(t, lo, hi) <= |t| - k - 1
  {
    var low, high := t[..k + 1], t[k + 1..];
    assert t == low + high;
    WithinOfConcat(low, high, lo, hi);
    WithinBound(high, lo, hi);
    forall i | 0 <= i < |low|
      ensures low[i] < lo
    {
      assert i < k ==> Cm(t[i]) <= Cm(t[k]);
    }
    NoneWithin(low, lo, hi);
  }

  lemma TooHigh(t: seq<U32>, k: nat, lo: int, hi: int)
    requires SortedBy(t, Cm) && k < |t| && t[k] > hi
    ensures Within(t, lo, hi) <= k
  {
    var low, high := t[..k], t[k..];
    assert t == low + high;
    WithinOfConcat(low, high, lo, hi);
    WithinBound(low, lo, hi);
    forall i | 0 <= i < |high|
      ensures high[i] > hi
    {
      assert i > 0 ==> Cm(t[k]) <= Cm(t[k + i]);
    }
    NoneWithin(high, lo, hi);
  }

  lemma MajorityHolds(t: seq<U32>, k: nat, lo: int, hi: int)
    requires SortedBy(t, Cm) && 2 * Within(t, lo, hi) > |t|
    requires k < |t| && |t| <= 2 * k + 2 && 2 * k <= |t|
    ensures lo <= t[k] <= hi
  {
    hide SortedBy, Within;
    if t[k] < lo {
      TooLow(t, k, lo, hi);
    }
    if t[k] > hi {
      TooHigh(t, k, lo, hi);
    }
  }

  /** If more than half of the samples lie in a range, so does the median, whatever the others are. */
  lemma MedianFollowsTheMajority(s: seq<U32>, lo: int, hi: int)
    requires s != [] && 2 * Within(s, lo, hi) > |s|
    requires forall i :: 0 <= i < |s| ==> s[i] <= MAX_VALID_CM
    ensures lo <= Median(s) <= hi
  {
    hide Sort, SortedBy, Within;
    var t, n := Sort(s, Cm), |s|;
    SortSorts(s, Cm);
    SortedRange(s);
    WithinOfMultiset(s, t, lo, hi);
    MajorityHolds(t, n / 2, lo, hi);
    if n % 2 == 0 {
      MajorityHolds(t, n / 2 - 1, lo, hi);
      assert t[n / 2 - 1] in s && t[n / 2] in s;
    }
  }

  lemma {:induction false} AllWithin(s: seq<U32>, lo: int, hi: int)
    requires forall i :: 0 <= i < |s| ==> lo <= s[i] <= hi
    ensures Within(s, lo, hi) == |s|
  {
    if s != [] {
      AllWithin(s[..|s| - 1], lo, hi);
    }
  }

  // ---------------------------------------------------------------------------
  // The distance
  // ---------------------------------------------------------------------------

  /** Calibration never underflows or wraps, is monotone, and tops out at 2951 cm. */
  lemma CalibrationIsMonotone(a: U32, b: U32)
    requires a <= b <= MAX_VALID_CM
    ensures Calibrated(a) <= Calibrated(b) <= 2951
  {
  }

  /** ... and on the numbers that can occur, the 32-bit intermediate results are the true ones. */
  lemma NoWrapInRange(ifft: U32)
    requires MIN_VALID_CM <= ifft <= MAX_VALID_CM
    ensures ExpectedCm(ifft, PS_SLOPE_Q8, PS_OFFSET_CM) == ifft * PS_SLOPE_Q8 / 256 + PS_OFFSET_CM
    ensures ExpectedCm(ifft, RTT_SLOPE_Q8, RTT_OFFSET_CM) == ifft * RTT_SLOPE_Q8 / 256 + RTT_OFFSET_CM
    ensures (ExpectedCm(ifft, RTT_SLOPE_Q8, RTT_OFFSET_CM) + RELAY_MARGIN_CM) % WRAP
         == ifft * RTT_SLOPE_Q8 / 256 + RTT_OFFSET_CM + RELAY_MARGIN_CM
  {
    ExpectedIsExact(ifft, PS_SLOPE_Q8, PS_OFFSET_CM);
    ExpectedIsExact(ifft, RTT_SLOPE_Q8, RTT_OFFSET_CM);
    SmallStays(ifft * RTT_SLOPE_Q8 / 256 + RTT_OFFSET_CM + RELAY_MARGIN_CM);
  }

  lemma SmallStays(x: int)
    requires 0 <= x < WRAP
    ensures x % WRAP == x
  {
  }

  lemma ExpectedIsExact(ifft: U32, slope: U32, offset: U32)
    requires ifft <= MAX_VALID_CM && (slope == PS_SLOPE_Q8 || slope == RTT_SLOPE_Q8) && offset <= 1000
    ensures ExpectedCm(ifft, slope, offset) == ifft * slope / 256 + offset <= 5000
  {
    assert 0 <= ifft * slope <= 3000 * 266;
    SmallStays(ifft * slope);
    SmallStays(ifft * slope / 256 + offset);
  }

  /**
   A burst yields a distance exactly when at least ten samples were accepted and they outnumber the
   suspected relays; then the distance is the calibrated median, in 0..2951 cm, and any range that
   holds most of the stored samples holds the median.
   */
  lemma BurstYieldsADistanceIff(raws: seq<Raw>)
    ensures var m, cm := Finished(raws), Stored(raws);
      && (m.result == CsOk <==> |cm| >= BURST_MIN_ACCEPTED && Count(raws, SuspectRelay) < |cm|)
      && (m.result == CsOk ==> m.pbrCm == Median(cm) && m.distanceCm == Calibrated(m.pbrCm) <= 2951)
      && (m.result != CsOk ==> m.distanceCm == 0 && m.pbrCm == 0)
      && (m.result == CsOk ==> forall lo, hi :: 2 * Within(cm, lo, hi) > |cm| ==> lo <= m.pbrCm <= hi)
  {
    hide Median;
    var m, cm := Finished(raws), Stored(raws);
    if m.result == CsOk {
      forall lo, hi | 2 * Within(cm, lo, hi) > |cm|
        ensures lo <= m.pbrCm <= hi
      {
        MedianFollowsTheMajority(cm, lo, hi);
      }
      AllWithin(cm, MIN_VALID_CM, MAX_VALID_CM);
      MedianFollowsTheMajority(cm, MIN_VALID_CM, MAX_VALID_CM);
      CalibrationIsMonotone(m.pbrCm, m.pbrCm);
    }
  }

  /** How a burst fails, and what a good one says of itself. */
  lemma BurstFailsAs(raws: seq<Raw>)
    ensures var m, kept := Finished(raws), |Stored(raws)|;
      var relays, poor := Count(raws, SuspectRelay), Count(raws, PoorQuality);
      && (m.result == FailDisagree <==> relays > 0 && relays >= kept)
      && (m.result == FailQuality <==> kept < BURST_MIN_ACCEPTED && poor > kept && (relays == 0 || relays < kept))
      && (m.result == FailProcedure <==> kept < BURST_MIN_ACCEPTED && poor <= kept && (relays == 0 || relays < kept))
      && (m.result == CsOk ==> m.quality == kept)
  {
    hide Median, Calibrated, Count, Stored;
  }

  // ---------------------------------------------------------------------------
  // What the distance means
  // ---------------------------------------------------------------------------

  /** What the radio's estimator says, in whole centimetres, at a true distance. */
  function Estimate(trueCm: nat): nat {
    trueCm * IFFT_SLOPE_Q8 / 256 + IFFT_OFFSET_CM
  }

  lemma EstimateGrows(lo: nat, hi: nat)
    requires lo <= hi
    ensures Estimate(lo) <= Estimate(hi)
  {
    assert lo * IFFT_SLOPE_Q8 <= hi * IFFT_SLOPE_Q8;
  }

  /** Calibration inverts the estimator to within two centimetres, over the whole range a distance can have. */
  lemma CalibrationInverts(trueCm: nat)
    requires trueCm <= 2951
    ensures trueCm - 2 <= Calibrated(Estimate(trueCm)) <= trueCm
    ensures Estimate(trueCm) <= MAX_VALID_CM
  {
  }

  /** At or below the estimator's offset, the user is at the anchor. */
  lemma OffsetIsZero(raw: U32)
    requires raw <= IFFT_OFFSET_CM
    ensures Calibrated(raw) == 0
  {
  }

  /**
   If more than half of the stored samples are what the estimator says between two true distances, then the
   distance reported lies between those two, give or take two centimetres.
   */
  lemma BurstMeasuresTheDistance(raws: seq<Raw>, lo: nat, hi: nat)
    requires Finished(raws).result == CsOk && lo <= hi <= 2951
    requires 2 * Within(Stored(raws), Estimate(lo), Estimate(hi)) > |Stored(raws)|
    ensures lo - 2 <= Finished(raws).distanceCm <= hi
  {
    hide Median, Calibrated, Within, Stored;
    BurstYieldsADistanceIff(raws);
    var median := Median(Stored(raws));
    CalibrationInverts(lo);
    CalibrationInverts(hi);
    EstimateGrows(lo, hi);
    CalibrationIsMonotone(Estimate(lo), median);
    CalibrationIsMonotone(median, Estimate(hi));
  }

  // ---------------------------------------------------------------------------
  // The gates
  // ---------------------------------------------------------------------------

  /** Slope and offset of another estimate against the first, in whole centimetres and without wrap-around. */
  function Expected(ifftCm: nat, slopeQ8: nat, offsetCm: nat): nat {
    ifftCm * slopeQ8 / 256 + offsetCm
  }

  predicate InRange(r: Raw) {
    r.hasIfft && MIN_VALID_CM <= r.ifftCm <= MAX_VALID_CM
  }

  /** The phase slope, if measured, is within 250 cm of what the first estimate makes it. */
  predicate PhaseAgrees(r: Raw) {
    r.hasPhaseSlope ==>
      var want := Expected(r.ifftCm, PS_SLOPE_Q8, PS_OFFSET_CM);
      want - PS_DIVERGENCE_MAX_CM <= r.phaseSlopeCm <= want + PS_DIVERGENCE_MAX_CM
  }

  /** The round trip, if measured, is no more than 400 cm longer than the first estimate makes it. */
  predicate NotDelayed(r: Raw) {
    r.hasRtt ==> r.rttCm <= Expected(r.ifftCm, RTT_SLOPE_Q8, RTT_OFFSET_CM) + RELAY_MARGIN_CM
  }

  /** Which procedures each gate rejects, in plain arithmetic: the 32-bit intermediates never wrap in range. */
  lemma FatesAre(r: Raw)
    ensures FateOf(r) == MissingIfft <==> !r.hasIfft
    ensures FateOf(r) == OutOfRange <==> r.hasIfft && !InRange(r)
    ensures FateOf(r) == PoorQuality <==> InRange(r) && !PhaseAgrees(r)
    ensures FateOf(r) == SuspectRelay <==> InRange(r) && PhaseAgrees(r) && !NotDelayed(r)
    ensures FateOf(r) == Accepted <==> InRange(r) && PhaseAgrees(r) && NotDelayed(r)
  {
    hide ExpectedCm;
    if InRange(r) {
      ExpectedIsExact(r.ifftCm, PS_SLOPE_Q8, PS_OFFSET_CM);
      ExpectedIsExact(r.ifftCm, RTT_SLOPE_Q8, RTT_OFFSET_CM);
      SmallStays(ExpectedCm(r.ifftCm, RTT_SLOPE_Q8, RTT_OFFSET_CM) + RELAY_MARGIN_CM);
    }
  }

  // ---------------------------------------------------------------------------
  // The order of the procedures
  // ---------------------------------------------------------------------------

  lemma {:induction false} AcceptedOfConcat(a: seq<Raw>, b: seq<Raw>)
    ensures AcceptedCm(a + b) == AcceptedCm(a) + AcceptedCm(b)
  {
    if b == [] {
      assert a + b == a;
    } else {
      assert (a + b)[..|a + b| - 1] == a + b[..|b| - 1];
      AcceptedOfConcat(a, b[..|b| - 1]);
    }
  }

  lemma {:induction false} CountOfConcat(a: seq<Raw>, b: seq<Raw>, f: Fate)
    ensures Count(a + b, f) == Count(a, f) + Count(b, f)
  {
    if b == [] {
      assert a + b == a;
    } else {
      assert (a + b)[..|a + b| - 1] == a + b[..|b| - 1];
      CountOfConcat(a, b[..|b| - 1], f);
    }
  }

  function AcceptedOne(r: Raw): seq<U32> {
    if FateOf(r) == Accepted then [r.ifftCm] else []
  }

  lemma OneAlone(r: Raw, f: Fate)
    ensures AcceptedCm([r]) == AcceptedOne(r) && Count([r], f) == (if FateOf(r) == f then 1 else 0)
  {
    hide FateOf;
    assert [r][..0] == [];
    assert AcceptedCm([r][..0]) == [] && Count([r][..0], f) == 0;
  }

  /** What one procedure contributes does not depend on where it stands. */
  lemma TakenOut(b: seq<Raw>, k: nat, f: Fate)
    requires k < |b|
    ensures multiset(AcceptedCm(b)) == multiset(AcceptedCm(b[..k] + b[k + 1..])) + multiset(AcceptedOne(b[k]))
    ensures Count(b, f) == Count(b[..k] + b[k + 1..], f) + (if FateOf(b[k]) == f then 1 else 0)
  {
    hide AcceptedCm, Count, FateOf, AcceptedOne;
    var x, front, back := [b[k]], b[..k], b[k + 1..];
    assert b == front + x + back;
    OneAlone(b[k], f);
    AcceptedOfConcat(front + x, back);
    AcceptedOfConcat(front, x);
    AcceptedOfConcat(front, back);
    CountOfConcat(front + x, back, f);
    CountOfConcat(front, x, f);
    CountOfConcat(front, back, f);
  }

  /** The same procedures in another order: the same accepted estimates and the same tallies. */
  lemma {:induction false} BagIgnoresOrder(a: seq<Raw>, b: seq<Raw>, f: Fate)
    requires multiset(a) == multiset(b)
    ensures multiset(AcceptedCm(a)) == multiset(AcceptedCm(b)) && Count(a, f) == Count(b, f)
    decreases |a|
  {
    hide FateOf, AcceptedOne;
    if a == [] {
      assert |multiset(b)| == |b|;
    } else {
      var n := |a| - 1;
      var k := PlaceOfLast(a, b);
      var rest := b[..k] + b[k + 1..];
      TakenOut(a, n, f);
      TakenOut(b, k, f);
      assert a[..n] + a[n + 1..] == a[..n];
      BagIgnoresOrder(a[..n], rest, f);
    }
  }

  /** However the procedures of a burst of at most 24 accepted ones arrive, the measurement is the same. */
  lemma OrderOfArrivalDoesNotMatter(a: seq<Raw>, b: seq<Raw>)
    requires multiset(a) == multiset(b) && |AcceptedCm(a)| <= BURST_MAX
    ensures Finished(a) == Finished(b)
  {
    hide AcceptedCm, Count, Median, Calibrated;
    BagIgnoresOrder(a, b, SuspectRelay);
    BagIgnoresOrder(a, b, PoorQuality);
    assert |multiset(AcceptedCm(a))| == |AcceptedCm(a)| && |multiset(AcceptedCm(b))| == |AcceptedCm(b)|;
    if Stored(a) != [] {
      MedianIgnoresOrder(Stored(a), Stored(b));
    }
  }

  // ---------------------------------------------------------------------------
  // Past the 24th sample the order does matter
  // ---------------------------------------------------------------------------

  function Clean(cm: U32): Raw {
    Raw(cm, 0, 0, true, false, false)
  }

  function Many(n: nat, cm: U32): (raws: seq<Raw>)
    ensures |raws| == n
  {
    seq(n, _ => Clean(cm))
  }

  lemma {:induction false} ManyAccepted(n: nat, cm: U32)
    requires MIN_VALID_CM <= cm <= MAX_VALID_CM
    ensures AcceptedCm(Many(n, cm)) == seq(n, _ => cm) && Count(Many(n, cm), SuspectRelay) == 0
  {
    if n > 0 {
      ManyAccepted(n - 1, cm);
      assert Many(n, cm)[..n - 1] == Many(n - 1, cm);
    }
  }

  /** `m` samples of one value, then `n` of another. */
  function Samples(m: nat, x: U32, n: nat, y: U32): (s: seq<U32>)
    ensures |s| == m + n
    ensures forall i :: 0 <= i < m + n ==> s[i] == if i < m then x else y
  {
    seq(m + n, i => if i < m then x else y)
  }

  lemma TwoValues(m: nat, x: U32, n: nat, y: U32)
    requires MIN_VALID_CM <= x <= MAX_VALID_CM && MIN_VALID_CM <= y <= MAX_VALID_CM
    ensures AcceptedCm(Many(m, x) + Many(n, y)) == Samples(m, x, n, y)
    ensures Count(Many(m, x) + Many(n, y), SuspectRelay) == 0
  {
    hide AcceptedCm, Count;
    ManyAccepted(m, x);
    ManyAccepted(n, y);
    AcceptedOfConcat(Many(m, x), Many(n, y));
    CountOfConcat(Many(m, x), Many(n, y), SuspectRelay);
  }

  lemma HalfAndHalf()
    ensures Median(Samples(12, 100, 12, 2000)) == 1050
  {
    hide Sort, Samples;
    var s := Samples(12, 100, 12, 2000);
    SortSorts(s, Cm);
    SortedIsUnique(Sort(s, Cm), s, Cm);
    assert Sort(s, Cm)[11] == s[11] && Sort(s, Cm)[12] == s[12];
  }

  lemma MostlyFar(k: nat)
    requires 13 <= k <= 24
    ensures Median(Samples(k, 2000, 24 - k, 100)) == 2000
  {
    hide Median, Samples;
    var s := Samples(k, 2000, 24 - k, 100);
    AllWithin(s[..k], 2000, 2000);
    WithinOfConcat(s[..k], s[k..], 2000, 2000);
    assert s == s[..k] + s[k..];
    MedianFollowsTheMajority(s, 2000, 2000);
  }

  /** For any larger number of accepted procedures, two orders of the same ones that measure differently. */
  lemma OrderMattersPast24(n: nat) returns (a: seq<Raw>, b: seq<Raw>)
    requires n > BURST_MAX
    ensures multiset(a) == multiset(b) && |AcceptedCm(a)| == n
    ensures Finished(a) != Finished(b)
  {
    hide Median, AcceptedCm, Count, Calibrated;
    a, b := Many(12, 100) + Many(n - 12, 2000), Many(n - 12, 2000) + Many(12, 100);
    TwoValues(12, 100, n - 12, 2000);
    TwoValues(n - 12, 2000, 12, 100);
    var k := if n - 12 < 24 then n - 12 else 24;
    assert Stored(a) == Samples(12, 100, 12, 2000);
    assert Stored(b) == Samples(k, 2000, 24 - k, 100);
    HalfAndHalf();
    MostlyFar(k);
  }

  /** Every order of the same procedures, `n` of them accepted, measures the same. */
  ghost predicate OrderFree(n: nat) {
    forall a, b :: multiset(a) == multiset(b) && |AcceptedCm(a)| == n ==> Finished(a) == Finished(b)
  }

  /** The result is independent of the order of arrival exactly up to the 24 samples a burst can store. */
  lemma OrderFreeIff(n: nat)
    ensures OrderFree(n) <==> n <= BURST_MAX
  {
    hide AcceptedCm, Finished;
    if n <= BURST_MAX {
      forall a, b | multiset(a) == multiset(b) && |AcceptedCm(a)| == n
        ensures Finished(a) == Finished(b)
      {
        OrderOfArrivalDoesNotMatter(a, b);
      }
    } else {
      var a, b := OrderMattersPast24(n);
    }
  }
}
