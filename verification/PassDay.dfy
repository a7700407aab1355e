/**
 What a spent pass does to the schedule, against what it is described as: a one-day cancellation at noon,
 unambiguously inside the chosen day whatever the timezone offset (integrity.h:119, integrity.c:518). It
 is one day only for an event that was in force on no other, and inside the day only for offsets from
 -12:00 up to, but not including, +12:00.
 */
module PassDay {
  import opened Machine
  import opened CivilDate
  import opened Events
  import opened NextStart
  import opened Classify
  import opened Integrity
  import opened IntegrityInvariants

  // ---------------------------------------------------------------------------
  // Which day the pass falls on
  // ---------------------------------------------------------------------------

  /** Noon UTC of a date, read back at an offset, is that date exactly from -12:00 up to +11:59. */
  lemma PassLandsOnItsDateIff(e: Event, yyyymmdd: U32, tz: I16)
    requires ValidDate(PassDate(yyyymmdd))
    ensures LocalDate(PassNegate(e, yyyymmdd).referenceDate, tz) == PassDate(yyyymmdd) <==> -720 <= tz < 720
  {
    hide CivilFromDays, DaysFromCivil;
    var d := PassDate(yyyymmdd);
    var day := DaysFromCivil(d.year, d.month, d.day);
    var utc := PassNegate(e, yyyymmdd).referenceDate;
    assert utc == day * 86400 + 43200;
    LocalDayIsFloor(utc, tz);
    NoonDay(day, tz);
    CivilOfDays(d);
    PassDaysFit(d);
    DaysOfCivil(LocalDay(utc, tz).0);
  }

  /** Eight digits cannot name a far year, and an offset cannot reach one. */
  lemma PassDaysFit(d: Date)
    requires ValidDate(d) && 0 <= d.year <= 429496
    ensures DayFits(DaysFromCivil(d.year, d.month, d.day) - 30) && DayFits(DaysFromCivil(d.year, d.month, d.day) + 30)
  {
    hide DaysFromCivil, MarchYearStart;
    YearSpan(d);
    YearsGrow(-1, d.year - 1);
    YearsGrow(d.year, 429496);
    assert MarchYearStart(-1) > FIRST_DAY && MarchYearStart(429496) + 400 < LAST_DAY by { EarlyYears(); }
  }

  lemma EarlyYears()
    ensures MarchYearStart(-1) > FIRST_DAY && MarchYearStart(429496) + 400 < LAST_DAY
  {
  }

  lemma NoonDay(day: int, tz: int)
    ensures (day * 86400 + 43200 + tz * 60) / 86400 == day <==> -720 <= tz < 720
  {
  }

  /** A watch in Auckland in summer: the pass for 17 September falls on the 18th. */
  lemma PassCanMissItsDate(e: Event)
    ensures LocalDate(PassNegate(e, 20260917).referenceDate, 780) == Date(2026, 9, 18)
  {
    hide CivilFromDays;
    assert PassDate(20260917) == Date(2026, 9, 17);
    CivilOfDays(Date(2026, 9, 18));
    LocalDayIsFloor(PassNegate(e, 20260917).referenceDate, 780);
  }

  // ---------------------------------------------------------------------------
  // Which days it cancels
  // ---------------------------------------------------------------------------

  /** The stored event with this id is in force on this date at this minute. */
  ghost predicate InForce(s: seq<Event>, id: Uuid, date: Date, minute: int, tz: int) {
    Has(s, id) && Enforces(Find(s, id).value, date, minute, tz)
  }

  lemma PassReplaces(g: Gate, id: Uuid, yyyymmdd: U32, nowS: nat, other: Uuid)
    requires Shape(g) && SpendPass(g, id, yyyymmdd, nowS).ok
    ensures Has(g.sched, id)
    ensures var after := SpendPass(g, id, yyyymmdd, nowS).gate;
      Find(after.sched, other) == if other == id then Some(PassNegate(Find(g.sched, id).value, yyyymmdd)) else Find(g.sched, other)
  {
    hide PassNegate, Upserted, Aged;
    UpsertFinds(g.sched, PassNegate(Find(g.sched, id).value, yyyymmdd), other);
    NegateKeepsId(Find(g.sched, id).value, yyyymmdd);
  }

  lemma NegateKeepsId(e: Event, yyyymmdd: U32)
    ensures PassNegate(e, yyyymmdd).id == e.id && PassNegate(e, yyyymmdd).negate
  {
  }

  /** After a successful spend the event is in force on no date at all, and every other event is as it was. */
  lemma PassCancelsEveryDay(g: Gate, id: Uuid, yyyymmdd: U32, nowS: nat, date: Date, minute: int, tz: int, other: Uuid)
    requires Shape(g) && SpendPass(g, id, yyyymmdd, nowS).ok
    ensures var after := SpendPass(g, id, yyyymmdd, nowS).gate;
      && !InForce(after.sched, id, date, minute, tz)
      && (other != id ==> (InForce(after.sched, other, date, minute, tz) <==> InForce(g.sched, other, date, minute, tz)))
  {
    hide SpendPass, PassNegate, OccursOn;
    PassReplaces(g, id, yyyymmdd, nowS, id);
    PassReplaces(g, id, yyyymmdd, nowS, other);
    NegateKeepsId(Find(g.sched, id).value, yyyymmdd);
  }

  /** The pass left every other date as it was. */
  ghost predicate OnlyThatDay(before: seq<Event>, after: seq<Event>, id: Uuid, day: Date, tz: int) {
    forall date, minute :: date != day ==> (InForce(after, id, date, minute, tz) <==> InForce(before, id, date, minute, tz))
  }

  /** The event is in force on no date but this one. */
  predicate NeverOnAnotherDay(e: Event, day: Date, tz: int) {
    || e.negate
    || e.startTime >= e.endTime
    || (e.recurrence == RECUR_ONCE && LocalDate(e.referenceDate, tz) == day)
  }

  lemma SomeOtherDay(e: Event, day: Date, tz: int) returns (date: Date)
    requires (Repeats(e) || e.recurrence == RECUR_ONCE) && !NeverOnAnotherDay(e, day, tz)
    ensures date != day && Enforces(e, date, e.startTime, tz)
  {
    hide CivilFromDays, LocalDate;
    if e.recurrence == RECUR_ONCE {
      date := LocalDate(e.referenceDate, tz);
    } else {
      var a, b := TellingDates(e, tz);
      date := if CivilFromDays(a) == day then CivilFromDays(b) else CivilFromDays(a);
    }
  }

  /**
   A pass is the one-day cancellation it is described as exactly when its event was in force on no other
   date: an event already cancelled, an empty window, or a one-time event of that very date. Spent on a
   daily, weekly or monthly commitment it cancels the commitment for good.
   */
  lemma PassIsOneDayIff(g: Gate, id: Uuid, yyyymmdd: U32, nowS: nat, tz: int)
    requires Shape(g) && SpendPass(g, id, yyyymmdd, nowS).ok
    requires Has(g.sched, id)
    requires var e := Find(g.sched, id).value; Repeats(e) || e.recurrence == RECUR_ONCE
    ensures OnlyThatDay(g.sched, SpendPass(g, id, yyyymmdd, nowS).gate.sched, id, PassDate(yyyymmdd), tz)
       <==> NeverOnAnotherDay(Find(g.sched, id).value, PassDate(yyyymmdd), tz)
  {
    hide SpendPass, LocalDate, Find, Has;
    var e, after := Find(g.sched, id).value, SpendPass(g, id, yyyymmdd, nowS).gate.sched;
    forall date, minute
      ensures !InForce(after, id, date, minute, tz)
    {
      PassCancelsEveryDay(g, id, yyyymmdd, nowS, date, minute, tz, id);
    }
    if !NeverOnAnotherDay(e, PassDate(yyyymmdd), tz) {
      var date := SomeOtherDay(e, PassDate(yyyymmdd), tz);
      assert InForce(g.sched, id, date, e.startTime, tz);
    }
  }
}
