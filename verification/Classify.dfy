/**
 Tighten or loosen: the comparison of two versions of one event that decides whether a change may
 apply at once.

 The rules are modelled as the firmware states them. They are then measured against what an event
 does, at every date and minute, and proved sound, and a preorder, so that no chain of instant edits
 ends looser than it began.
 */
module Classify {
  import opened Machine
  import opened CivilDate
  import opened Events
  import opened NextStart

  datatype Rel = Equal | Superset | Subset | Incomparable

  /** The new version covers everything the old one did. */
  predicate Covers(rel: Rel) {
    rel == Equal || rel == Superset
  }

  datatype Change = NoChange | Tighten | Loosen

  predicate IsInstant(c: Change) {
    c == NoChange || c == Tighten
  }

  // ---------------------------------------------------------------------------
  // Relations per field
  // ---------------------------------------------------------------------------

  /** Rank 2 is strict, 0 is loose. */
  function ProfileStrictness(p: U8): int { 2 - p % 3 }

  /** 0 is silent, 1 both, 2 buzz. */
  function ProfileOutput(p: U8): int { p / 3 }

  function RelProfile(old_: U8, new_: U8): Rel {
    if old_ == new_ then Equal
    else if old_ >= PROFILE_COUNT || new_ >= PROFILE_COUNT then Incomparable
    else
      var so, sn := ProfileStrictness(old_), ProfileStrictness(new_);
      var oo, on := ProfileOutput(old_), ProfileOutput(new_);
      if oo != on && on != 1 && oo != 1 then Incomparable
      else
        var outCmp := if oo == on then 0 else if on == 1 then 1 else -1;
        var strCmp := if sn > so then 1 else if sn < so then -1 else 0;
        if strCmp >= 0 && outCmp >= 0 then Superset
        else if strCmp <= 0 && outCmp <= 0 then Subset
        else Incomparable
  }

  function RelWindow(old_: Event, new_: Event): Rel {
    if old_.startTime == new_.startTime && old_.endTime == new_.endTime then Equal
    else if new_.startTime <= old_.startTime && new_.endTime >= old_.endTime then Superset
    else if new_.startTime >= old_.startTime && new_.endTime <= old_.endTime then Subset
    else Incomparable
  }

  function RelRecurrence(old_: Event, new_: Event, tz: int): Rel {
    var o, n := old_.recurrence, new_.recurrence;
    if o == n then
      if o == RECUR_DAILY then Equal
      else if o == RECUR_WEEKLY then (if old_.dayOfWeek == new_.dayOfWeek then Equal else Incomparable)
      else if o == RECUR_MONTHLY then (if old_.dayOfMonth == new_.dayOfMonth then Equal else Incomparable)
      else if o == RECUR_ONCE then
        (if LocalDate(old_.referenceDate, tz) == LocalDate(new_.referenceDate, tz) then Equal else Incomparable)
      else Incomparable
    else if n == RECUR_DAILY then Superset
    else if o == RECUR_DAILY then Subset
    else if n == RECUR_ONCE then Subset
    else Incomparable
  }

  ghost predicate Includes(big: seq<Uuid>, small: seq<Uuid>) {
    forall i :: 0 <= i < |small| ==> small[i] in big
  }

  ghost function RelBeepAnchors(old_: Event, new_: Event): Rel {
    if Includes(Beeps(new_), Beeps(old_)) && Includes(Beeps(old_), Beeps(new_)) then Equal
    else if Includes(Beeps(new_), Beeps(old_)) then Superset
    else if Includes(Beeps(old_), Beeps(new_)) then Subset
    else Incomparable
  }

  method BeepContains(e: Event, uuid: Uuid) returns (found: bool)
    ensures found <==> uuid in Beeps(e)
  {
    var i := 0;
    while i < e.beepAnchorCount
      invariant 0 <= i <= e.beepAnchorCount
      invariant uuid !in e.beepAnchors[..i]
    {
      if e.beepAnchors[i] == uuid {
        assert Beeps(e)[i] == uuid;
        return true;
      }
      i := i + 1;
    }
    return false;
  }

  /** The set comparison as the firmware runs it: two scans that set flags. */
  method RelBeepAnchorsLoop(old_: Event, new_: Event) returns (rel: Rel)
    ensures rel == RelBeepAnchors(old_, new_)
  {
    var newHasAllOld, oldHasAllNew := true, true;
    var i := 0;
    while i < old_.beepAnchorCount
      invariant 0 <= i <= old_.beepAnchorCount
      invariant newHasAllOld ==> forall k :: 0 <= k < i ==> Beeps(old_)[k] in Beeps(new_)
      invariant !newHasAllOld ==> !Includes(Beeps(new_), Beeps(old_))
    {
      var has := BeepContains(new_, old_.beepAnchors[i]);
      if !has {
        assert Beeps(old_)[i] !in Beeps(new_);
        newHasAllOld := false;
        break;
      }
      i := i + 1;
    }
    i := 0;
    while i < new_.beepAnchorCount
      invariant 0 <= i <= new_.beepAnchorCount
      invariant oldHasAllNew ==> forall k :: 0 <= k < i ==> Beeps(new_)[k] in Beeps(old_)
      invariant !oldHasAllNew ==> !Includes(Beeps(old_), Beeps(new_))
    {
      var has := BeepContains(old_, new_.beepAnchors[i]);
      if !has {
        assert Beeps(new_)[i] !in Beeps(old_);
        oldHasAllNew := false;
        break;
      }
      i := i + 1;
    }
    return if newHasAllOld && oldHasAllNew then Equal
           else if newHasAllOld then Superset
           else if oldHasAllNew then Subset
           else Incomparable;
  }

  // ---------------------------------------------------------------------------
  // Whole events
  // ---------------------------------------------------------------------------

  function ClassifyAdded(e: Event): Change {
    if e.negate then Loosen else Tighten
  }

  function ClassifyDeleted(e: Event): Change {
    Loosen
  }

  /** "No beeping" orders below the lightest beep pattern. */
  function AnchorProfileRank(p: U8): int {
    if p == ANCHOR_PROFILE_NONE then -1 else p
  }

  predicate SameTarget(old_: Event, new_: Event) {
    && old_.hasAnchorId == new_.hasAnchorId
    && (new_.hasAnchorId ==> old_.anchorId == new_.anchorId)
    && Ssid(old_) == Ssid(new_)
  }

  ghost predicate NotInstant(old_: Event, new_: Event, tz: int) {
    || !Covers(RelWindow(old_, new_))
    || !Covers(RelRecurrence(old_, new_, tz))
    || !Covers(RelProfile(old_.profile, new_.profile))
    || !Covers(RelBeepAnchors(old_, new_))
    || old_.criteria != new_.criteria
    || !SameTarget(old_, new_)
    || AnchorProfileRank(new_.anchorProfile) < AnchorProfileRank(old_.anchorProfile)
    || new_.donningGraceS > old_.donningGraceS
    || (!old_.negate && new_.negate)
  }

  ghost predicate AnyTighter(old_: Event, new_: Event, tz: int) {
    || RelWindow(old_, new_) == Superset
    || RelRecurrence(old_, new_, tz) == Superset
    || RelProfile(old_.profile, new_.profile) == Superset
    || RelBeepAnchors(old_, new_) == Superset
    || AnchorProfileRank(new_.anchorProfile) > AnchorProfileRank(old_.anchorProfile)
    || new_.donningGraceS < old_.donningGraceS
    || (old_.negate && !new_.negate)
  }

  ghost function ClassifyModified(old_: Event, new_: Event, tz: int): Change {
    if EventEqual(old_, new_) then NoChange
    else if NotInstant(old_, new_, tz) then Loosen
    else if AnyTighter(old_, new_, tz) then Tighten
    else NoChange
  }

  method Fold(rel: Rel, anyTighten: bool, notInstant: bool) returns (t: bool, n: bool)
    ensures t == (anyTighten || rel == Superset)
    ensures n == (notInstant || !Covers(rel))
  {
    t, n := anyTighten, notInstant;
    match rel {
      case Equal =>
      case Superset => t := true;
      case Subset => n := true;
      case Incomparable => n := true;
    }
  }

  /** impulse_classify_modified: two flags accumulated field by field. */
  method ClassifyModifiedLoop(old_: Event, new_: Event, tz: int) returns (c: Change)
    ensures c == ClassifyModified(old_, new_, tz)
  {
    if EventEqual(old_, new_) {
      return NoChange;
    }
    var anyTighten, notInstant := false, false;
    anyTighten, notInstant := Fold(RelWindow(old_, new_), anyTighten, notInstant);
    anyTighten, notInstant := Fold(RelRecurrence(old_, new_, tz), anyTighten, notInstant);
    anyTighten, notInstant := Fold(RelProfile(old_.profile, new_.profile), anyTighten, notInstant);
    var beeps := RelBeepAnchorsLoop(old_, new_);
    anyTighten, notInstant := Fold(beeps, anyTighten, notInstant);
    if old_.criteria != new_.criteria {
      notInstant := true;
    }
    if old_.hasAnchorId != new_.hasAnchorId || (new_.hasAnchorId && old_.anchorId != new_.anchorId) {
      notInstant := true;
    }
    if old_.ssidLen != new_.ssidLen || (new_.ssidLen != 0 && Ssid(old_) != Ssid(new_)) {
      notInstant := true;
    }
    if old_.anchorProfile != new_.anchorProfile {
      var o := if old_.anchorProfile == ANCHOR_PROFILE_NONE then -1 else old_.anchorProfile;
      var n := if new_.anchorProfile == ANCHOR_PROFILE_NONE then -1 else new_.anchorProfile;
      if n > o {
        anyTighten := true;
      } else {
        notInstant := true;
      }
    }
    if old_.donningGraceS != new_.donningGraceS {
      if new_.donningGraceS < old_.donningGraceS {
        anyTighten := true;
      } else {
        notInstant := true;
      }
    }
    if !old_.negate && new_.negate {
      notInstant := true;
    } else if old_.negate && !new_.negate {
      anyTighten := true;
    }
    if notInstant {
      return Loosen;
    }
    return if anyTighten then Tighten else NoChange;
  }

  // ---------------------------------------------------------------------------
  // What an event enforces
  // ---------------------------------------------------------------------------

  /** On this date, at this minute, the event is in force by its own rule. */
  ghost predicate Enforces(e: Event, date: Date, minute: int, tz: int) {
    && OccursOn(e, date, tz)
    && !e.negate
    && e.startTime <= minute < e.endTime
  }

  /** A profile no weaker in either dimension: "both" is above "silent" and "buzz", which are unordered. */
  predicate ProfileNoWeaker(old_: U8, new_: U8) {
    || old_ == new_
    || (&& old_ < PROFILE_COUNT && new_ < PROFILE_COUNT
        && ProfileStrictness(new_) >= ProfileStrictness(old_)
        && (ProfileOutput(new_) == ProfileOutput(old_) || ProfileOutput(new_) == 1))
  }

  /**
   What "binds at least as hard" means to the wearer: the same demand about the same target, in force
   whenever the old one was, with output, grace and anchors no weaker.
   */
  ghost predicate BindsAtLeast(old_: Event, new_: Event, tz: int) {
    && (forall date, minute :: Enforces(old_, date, minute, tz) ==> Enforces(new_, date, minute, tz))
    && old_.criteria == new_.criteria
    && SameTarget(old_, new_)
    && ProfileNoWeaker(old_.profile, new_.profile)
    && Includes(Beeps(new_), Beeps(old_))
    && AnchorProfileRank(new_.anchorProfile) >= AnchorProfileRank(old_.anchorProfile)
    && new_.donningGraceS <= old_.donningGraceS
  }

  lemma RecurrenceCovers(old_: Event, new_: Event, date: Date, tz: int)
    requires EventEqual(old_, new_) || Covers(RelRecurrence(old_, new_, tz))
    requires OccursOn(old_, date, tz)
    ensures OccursOn(new_, date, tz)
  {
  }

  /** Sound: an instant modification binds at least as hard, at every date and minute. */
  lemma InstantBindsAtLeast(old_: Event, new_: Event, tz: int)
    requires IsInstant(ClassifyModified(old_, new_, tz))
    ensures BindsAtLeast(old_, new_, tz)
  {
    hide OccursOn, LocalDate, RelRecurrence;
    forall date, minute | Enforces(old_, date, minute, tz)
      ensures Enforces(new_, date, minute, tz)
    {
      RecurrenceCovers(old_, new_, date, tz);
    }
  }

  /** Equal values are interchangeable to the classifier. */
  lemma EqualValuesClassifyAlike(a: Event, b: Event, c: Event, tz: int)
    requires EventEqual(a, b)
    ensures ClassifyModified(a, c, tz) == ClassifyModified(b, c, tz)
    ensures ClassifyModified(c, a, tz) == ClassifyModified(c, b, tz)
  {
    hide LocalDate;
    assert EventEqual(a, c) == EventEqual(b, c);
    assert EventEqual(c, a) == EventEqual(c, b);
  }

  lemma ClassifyReflexive(a: Event, tz: int)
    ensures ClassifyModified(a, a, tz) == NoChange
  {
  }

  lemma ProfileTransitive(a: U8, b: U8, c: U8)
    requires Covers(RelProfile(a, b)) && Covers(RelProfile(b, c))
    ensures Covers(RelProfile(a, c))
  {
  }

  lemma RecurrenceTransitive(a: Event, b: Event, c: Event, tz: int)
    requires Covers(RelRecurrence(a, b, tz)) && Covers(RelRecurrence(b, c, tz))
    ensures Covers(RelRecurrence(a, c, tz))
  {
    hide LocalDate;
  }

  lemma IncludesTransitive(a: seq<Uuid>, b: seq<Uuid>, c: seq<Uuid>)
    requires Includes(b, a) && Includes(c, b)
    ensures Includes(c, a)
  {
  }

  /** Instant edits compose: no chain of them is itself a loosening. */
  lemma InstantIsTransitive(a: Event, b: Event, c: Event, tz: int)
    requires IsInstant(ClassifyModified(a, b, tz)) && IsInstant(ClassifyModified(b, c, tz))
    ensures IsInstant(ClassifyModified(a, c, tz))
  {
    hide LocalDate, RelRecurrence, RelProfile;
    if EventEqual(a, b) {
      EqualValuesClassifyAlike(a, b, c, tz);
    } else if EventEqual(b, c) {
      EqualValuesClassifyAlike(b, c, a, tz);
    } else {
      ProfileTransitive(a.profile, b.profile, c.profile);
      RecurrenceTransitive(a, b, c, tz);
      IncludesTransitive(Beeps(a), Beeps(b), Beeps(c));
    }
  }

  /** A whole chain of instant edits, first to last. */
  lemma {:induction false} NoChainLoosens(versions: seq<Event>, tz: int)
    requires |versions| > 0
    requires forall i :: 0 < i < |versions| ==> IsInstant(ClassifyModified(versions[i - 1], versions[i], tz))
    ensures IsInstant(ClassifyModified(versions[0], versions[|versions| - 1], tz))
    ensures BindsAtLeast(versions[0], versions[|versions| - 1], tz)
  {
    hide ClassifyModified, BindsAtLeast;
    var n := |versions|;
    if n == 1 {
      ClassifyReflexive(versions[0], tz);
    } else {
      NoChainLoosens(versions[..n - 1], tz);
      InstantIsTransitive(versions[0], versions[n - 2], versions[n - 1], tz);
    }
    InstantBindsAtLeast(versions[0], versions[n - 1], tz);
  }

  // ---------------------------------------------------------------------------
  // Exact for repeating events
  // ---------------------------------------------------------------------------

  /** Two dates a repeating rule occurs on, far enough apart to tell it from every other rule. */
  lemma TellingDates(e: Event, tz: int) returns (a: int, b: int)
    requires Repeats(e)
    ensures OccursOnDay(e, a, tz) && OccursOnDay(e, b, tz)
    ensures CivilFromDays(a) != CivilFromDays(b) && DayFits(a) && DayFits(b)
    ensures e.recurrence == RECUR_DAILY ==> b == a + 1 && CivilFromDays(a).day != CivilFromDays(b).day
    ensures e.recurrence == RECUR_WEEKLY ==> CivilFromDays(a).day != CivilFromDays(b).day
    ensures e.recurrence == RECUR_MONTHLY ==> b == a + 31
  {
    hide CivilFromDays, DaysFromCivil, DayOfWeek;
    if e.recurrence == RECUR_DAILY {
      a, b := 0, 1;
      EarlyDays(0);
      EarlyDays(1);
    } else if e.recurrence == RECUR_WEEKLY {
      a := (e.dayOfWeek + 3) % 7;
      b := a + 7;
      EarlyDays(a);
      EarlyDays(b);
      WeekdayOfNumber(a);
      WeekdayOfNumber(b);
    } else {
      a := DaysFromCivil(2023, 7, e.dayOfMonth);
      b := DaysFromCivil(2023, 8, e.dayOfMonth);
      SameMonth(Date(2023, 7, 31), e.dayOfMonth);
      SameMonth(Date(2023, 8, 1), e.dayOfMonth);
      NextDateNumber(Date(2023, 7, 31));
      CivilOfDays(Date(2023, 7, e.dayOfMonth));
      CivilOfDays(Date(2023, 8, e.dayOfMonth));
      DaysOfCivil(a);
      DaysOfCivil(b);
    }
  }

  lemma EarlyDays(z: int)
    requires 0 <= z < 31
    ensures CivilFromDays(z) == Date(1970, 1, z + 1)
  {
    hide CivilFromDays;
    CivilOfDays(Date(1970, 1, z + 1));
    assert DaysFromCivil(1970, 1, z + 1) == z;
  }

  /** A repeating rule is covered only by itself and by "daily". */
  lemma OnlyDailyCovers(old_: Event, new_: Event, tz: int)
    requires Repeats(old_)
    requires forall date :: OccursOn(old_, date, tz) ==> OccursOn(new_, date, tz)
    ensures Covers(RelRecurrence(old_, new_, tz))
  {
    hide CivilFromDays, DayOfWeek, LocalDate;
    var a, b := TellingDates(old_, tz);
    assert OccursOn(new_, CivilFromDays(a), tz) && OccursOn(new_, CivilFromDays(b), tz);
    WeekdayOfNumber(a);
    WeekdayOfNumber(b);
  }

  lemma CoverageTellsAll(old_: Event, new_: Event, tz: int)
    requires Repeats(old_) && !old_.negate && old_.startTime < old_.endTime
    requires forall date, minute :: Enforces(old_, date, minute, tz) ==> Enforces(new_, date, minute, tz)
    ensures !new_.negate
    ensures Covers(RelWindow(old_, new_))
    ensures Covers(RelRecurrence(old_, new_, tz))
  {
    hide OccursOn, CivilFromDays, RelRecurrence;
    var a, b := TellingDates(old_, tz);
    assert Enforces(old_, CivilFromDays(a), old_.startTime, tz);
    assert Enforces(old_, CivilFromDays(a), old_.endTime - 1, tz);
    forall date | OccursOn(old_, date, tz)
      ensures OccursOn(new_, date, tz)
    {
      assert Enforces(old_, date, old_.startTime, tz);
    }
    OnlyDailyCovers(old_, new_, tz);
  }

  /** For a valid repeating event, "instant" is exactly "binds at least as hard". */
  lemma InstantIffBindsAtLeast(old_: Event, new_: Event, tz: int)
    requires Repeats(old_) && !old_.negate && old_.startTime < old_.endTime
    ensures IsInstant(ClassifyModified(old_, new_, tz)) <==> BindsAtLeast(old_, new_, tz)
  {
    hide OccursOn, RelRecurrence;
    if IsInstant(ClassifyModified(old_, new_, tz)) {
      InstantBindsAtLeast(old_, new_, tz);
    }
    if BindsAtLeast(old_, new_, tz) {
      CoverageTellsAll(old_, new_, tz);
      ProfileOrder(old_.profile, new_.profile);
    }
  }

  // ---------------------------------------------------------------------------
  // ... and for one-time events
  // ---------------------------------------------------------------------------

  /** A one-time rule is covered in fact by any rule that holds on its date; the firmware accepts itself and "daily". */
  lemma OnceCovers(old_: Event, new_: Event, tz: int)
    requires old_.recurrence == RECUR_ONCE && OccursOn(new_, LocalDate(old_.referenceDate, tz), tz)
    ensures Covers(RelRecurrence(old_, new_, tz)) <==> new_.recurrence == RECUR_ONCE || new_.recurrence == RECUR_DAILY
  {
    hide LocalDate, DayOfWeek;
  }

  /**
   For a one-time event, "instant" is "binds at least as hard" and, besides, still a one-time rule or the
   daily one: the weekly or monthly rule of its own date binds as hard and is nevertheless held back.
   */
  lemma OnceIsInstantIff(old_: Event, new_: Event, tz: int)
    requires old_.recurrence == RECUR_ONCE && !old_.negate && old_.startTime < old_.endTime
    ensures IsInstant(ClassifyModified(old_, new_, tz)) <==>
      BindsAtLeast(old_, new_, tz) && (new_.recurrence == RECUR_ONCE || new_.recurrence == RECUR_DAILY)
  {
    hide LocalDate, DayOfWeek;
    var date := LocalDate(old_.referenceDate, tz);
    assert Enforces(old_, date, old_.startTime, tz) && Enforces(old_, date, old_.endTime - 1, tz);
    ProfileOrder(old_.profile, new_.profile);
    if IsInstant(ClassifyModified(old_, new_, tz)) {
      InstantBindsAtLeast(old_, new_, tz);
    }
    if BindsAtLeast(old_, new_, tz) {
      assert Enforces(new_, date, old_.startTime, tz) && Enforces(new_, date, old_.endTime - 1, tz);
      OnceCovers(old_, new_, tz);
    }
  }

  lemma ProfileOrder(a: U8, b: U8)
    ensures ProfileNoWeaker(a, b) <==> Covers(RelProfile(a, b))
  {
  }

  // ---------------------------------------------------------------------------
  // When nothing has changed
  // ---------------------------------------------------------------------------

  /** An event whose own rule is in force at some date and minute. */
  predicate BindsSometime(e: Event) {
    (Repeats(e) || e.recurrence == RECUR_ONCE) && !e.negate && e.startTime < e.endTime
  }

  /** The classifier sees the new rule as one that covers the old, if it does. */
  predicate Recognised(old_: Event, new_: Event) {
    old_.recurrence == RECUR_ONCE ==> new_.recurrence == RECUR_ONCE || new_.recurrence == RECUR_DAILY
  }

  /** The two exact conditions as one. */
  lemma InstantIff(old_: Event, new_: Event, tz: int)
    requires BindsSometime(old_)
    ensures IsInstant(ClassifyModified(old_, new_, tz)) <==> BindsAtLeast(old_, new_, tz) && Recognised(old_, new_)
  {
    hide ClassifyModified, BindsAtLeast;
    if old_.recurrence == RECUR_ONCE {
      OnceIsInstantIff(old_, new_, tz);
    } else {
      InstantIffBindsAtLeast(old_, new_, tz);
    }
  }

  /** A change is none exactly when it and its reversal are both instant. */
  lemma NoChangeIsMutual(a: Event, b: Event, tz: int)
    ensures ClassifyModified(a, b, tz) == NoChange
      <==> IsInstant(ClassifyModified(a, b, tz)) && IsInstant(ClassifyModified(b, a, tz))
  {
    hide LocalDate;
  }

  /** For two events in force at some time: no change means each binds at least as hard as the other. */
  lemma NoChangeIffEquallyBinding(a: Event, b: Event, tz: int)
    requires BindsSometime(a) && BindsSometime(b)
    ensures ClassifyModified(a, b, tz) == NoChange <==>
      BindsAtLeast(a, b, tz) && BindsAtLeast(b, a, tz) && Recognised(a, b) && Recognised(b, a)
  {
    hide ClassifyModified, BindsAtLeast;
    NoChangeIsMutual(a, b, tz);
    InstantIff(a, b, tz);
    InstantIff(b, a, tz);
  }
}
