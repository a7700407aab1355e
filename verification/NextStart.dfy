/**
 When an event occurs, and how long until it next starts.
 */
module NextStart {
  import opened Machine
  import opened CivilDate
  import opened Events

  /** impulse_event_occurs_on: the recurrence rule alone. */
  predicate OccursOn(e: Event, date: Date, tz: int) {
    if e.recurrence == RECUR_DAILY then true
    else if e.recurrence == RECUR_WEEKLY then DayOfWeek(date) == e.dayOfWeek
    else if e.recurrence == RECUR_MONTHLY then date.day == e.dayOfMonth
    else if e.recurrence == RECUR_ONCE then LocalDate(e.referenceDate, tz) == date
    else false
  }

  /** Occurs on local day number `day`. */
  predicate OccursOnDay(e: Event, day: int, tz: int) {
    OccursOn(e, CivilFromDays(day), tz)
  }

  /** UTC instant at which the event would start on local day number `day`. */
  function StartOnDay(e: Event, day: int, tz: int): int {
    day * 86400 - tz * 60 + e.startTime * 60
  }

  const HORIZON_DAYS := 400

  /** The day number of the local date of `now`: what the search counts from. */
  function BaseDay(now: int, tz: int): int {
    var today := LocalDate(now, tz);
    DaysFromCivil(today.year, today.month, today.day)
  }

  /** Every day the search may look at has a year that fits int32_t. */
  predicate SearchFits(now: int, tz: int) {
    DayFits(LocalDay(now, tz).0) && DayFits(LocalDay(now, tz).0 + HORIZON_DAYS)
  }

  /** The loop of impulse_seconds_until_next_start, from `offset` on. */
  function NextStartFrom(e: Event, now: int, tz: int, offset: nat): int
    requires offset <= HORIZON_DAYS
    decreases HORIZON_DAYS - offset
  {
    if offset == HORIZON_DAYS then I64_MAX
    else
      var d := CivilFromDays(BaseDay(now, tz) + offset);
      if !OccursOn(e, d, tz) || (offset == 0 && LocalMinute(now, tz) >= e.startTime) then
        NextStartFrom(e, now, tz, offset + 1)
      else
        UtcFromLocalMidnight(d, tz) + e.startTime * 60 - now
  }

  function SecondsUntilNextStart(e: Event, now: int, tz: int): int {
    NextStartFrom(e, now, tz, 0)
  }

  /** The search as the firmware runs it. */
  method SecondsUntilNextStartLoop(e: Event, nowUtc: int, tz: int) returns (secs: int)
    ensures secs == SecondsUntilNextStart(e, nowUtc, tz)
  {
    hide LocalMinute, LocalDate, CivilFromDays, DaysFromCivil, DayOfWeek;
    var today, nowMinute := LocalDate(nowUtc, tz), LocalMinute(nowUtc, tz);
    var baseDays := DaysFromCivil(today.year, today.month, today.day);
    var offset := 0;
    while offset < HORIZON_DAYS
      invariant 0 <= offset <= HORIZON_DAYS
      invariant SecondsUntilNextStart(e, nowUtc, tz) == NextStartFrom(e, nowUtc, tz, offset)
    {
      var d := CivilFromDays(baseDays + offset);
      if OccursOn(e, d, tz) {
        if !(offset == 0 && nowMinute >= e.startTime) {
          var midnight := UtcFromLocalMidnight(d, tz);
          var start := midnight + e.startTime * 60;
          return start - nowUtc;
        }
      }
      offset := offset + 1;
    }
    return I64_MAX;
  }

  // ---------------------------------------------------------------------------
  // What the search finds
  // ---------------------------------------------------------------------------

  /** `t` is the start of some occurrence of the event, on any day whatever. */
  ghost predicate StartsAt(e: Event, tz: int, t: int) {
    exists day: int :: OccursOnDay(e, day, tz) && t == StartOnDay(e, day, tz)
  }

  ghost predicate IsNextStart(e: Event, now: int, tz: int, t: int) {
    && t > now
    && StartsAt(e, tz, t)
    && forall u :: StartsAt(e, tz, u) && u > now ==> t <= u
  }

  /** First second past the days the search looks at. */
  function HorizonEnd(now: int, tz: int): int {
    (LocalDay(now, tz).0 + HORIZON_DAYS) * 86400 - tz * 60
  }

  /** A day's start is after `now` exactly when the day is later, or today with its minute still to come. */
  lemma StartIsAfterNow(e: Event, now: int, tz: int, day: int)
    requires e.startTime < 1440
    ensures StartOnDay(e, day, tz) > now
       <==> day > LocalDay(now, tz).0 || (day == LocalDay(now, tz).0 && LocalMinute(now, tz) < e.startTime)
  {
    LocalDayIsFloor(now, tz);
    var base, sec := LocalDay(now, tz).0, LocalDay(now, tz).1;
    assert now == base * 86400 - tz * 60 + sec;
    if day > base {
      assert day * 86400 >= (base + 1) * 86400;
    } else if day < base {
      assert day * 86400 <= (base - 1) * 86400;
    }
  }

  /** What the search computes with on its `offset`-th day, while the years fit. */
  lemma SearchDay(now: int, tz: int, offset: nat)
    requires SearchFits(now, tz) && offset < HORIZON_DAYS
    ensures var base := LocalDay(now, tz).0;
      && BaseDay(now, tz) == base
      && UtcFromLocalMidnight(CivilFromDays(base + offset), tz) == (base + offset) * 86400 - tz * 60
  {
    hide CivilFromDays, LocalDay, DaysFromCivil;
    DaysOfCivil(LocalDay(now, tz).0);
    DaysOfCivil(LocalDay(now, tz).0 + offset);
  }

  lemma {:induction false} SearchFrom(e: Event, now: int, tz: int, offset: nat) returns (day: int)
    requires offset <= HORIZON_DAYS
    requires e.startTime < 1440 && SearchFits(now, tz)
    ensures var r, base := NextStartFrom(e, now, tz, offset), LocalDay(now, tz).0;
      if r == I64_MAX then
        forall k: int {:trigger OccursOnDay(e, k, tz)} :: base + offset <= k < base + HORIZON_DAYS && OccursOnDay(e, k, tz)
          ==> StartOnDay(e, k, tz) <= now
      else
        && base + offset <= day < base + HORIZON_DAYS
        && OccursOnDay(e, day, tz)
        && now + r == StartOnDay(e, day, tz) > now
        && forall k: int {:trigger OccursOnDay(e, k, tz)} :: base + offset <= k < day && OccursOnDay(e, k, tz)
             ==> StartOnDay(e, k, tz) <= now
    decreases HORIZON_DAYS - offset
  {
    hide OccursOn, CivilFromDays, LocalDay, LocalMinute, BaseDay, UtcFromLocalMidnight, SearchFits;
    var base := LocalDay(now, tz).0;
    day := base + offset;
    if offset < HORIZON_DAYS {
      StartIsAfterNow(e, now, tz, base + offset);
      SearchDay(now, tz, offset);
      if !OccursOnDay(e, base + offset, tz) || (offset == 0 && LocalMinute(now, tz) >= e.startTime) {
        day := SearchFrom(e, now, tz, offset + 1);
      } else {
        StartWithinYears(e, now, tz, base + offset);
      }
    }
  }

  lemma StartWithinYears(e: Event, now: int, tz: int, day: int)
    requires e.startTime < 1440
    requires LocalDay(now, tz).0 <= day < LocalDay(now, tz).0 + HORIZON_DAYS
    ensures StartOnDay(e, day, tz) - now < HORIZON_DAYS * 86400
  {
    LocalDayIsFloor(now, tz);
    var base, sec := LocalDay(now, tz).0, LocalDay(now, tz).1;
    assert now == base * 86400 - tz * 60 + sec;
    assert day * 86400 <= (base + HORIZON_DAYS - 1) * 86400;
  }

  /**
   The search returns the distance to the least start strictly after now, or INT64_MAX; and it
   returns INT64_MAX exactly when nothing starts after now before the horizon ends.
   */
  lemma NextStartIsLeast(e: Event, now: int, tz: int)
    requires e.startTime < 1440 && SearchFits(now, tz)
    ensures var r := SecondsUntilNextStart(e, now, tz);
      && r > 0
      && (r != I64_MAX ==> IsNextStart(e, now, tz, now + r))
      && (r == I64_MAX <==> forall t :: StartsAt(e, tz, t) && t > now ==> t >= HorizonEnd(now, tz))
  {
    hide OccursOn, CivilFromDays, LocalDay, LocalMinute, DaysFromCivil, NextStartFrom;
    var r, base := SecondsUntilNextStart(e, now, tz), LocalDay(now, tz).0;
    var found := SearchFrom(e, now, tz, 0);
    forall day: int {:trigger OccursOnDay(e, day, tz)} | OccursOnDay(e, day, tz) && StartOnDay(e, day, tz) > now
      ensures r == I64_MAX ==> StartOnDay(e, day, tz) >= HorizonEnd(now, tz)
      ensures r != I64_MAX ==> now + r <= StartOnDay(e, day, tz)
    {
      StartIsAfterNow(e, now, tz, day);
      if r == I64_MAX {
        assert day * 86400 >= (base + HORIZON_DAYS) * 86400;
      } else {
        assert day * 86400 >= found * 86400;
      }
    }
    if r != I64_MAX {
      assert StartsAt(e, tz, now + r);
      assert found * 86400 <= (base + HORIZON_DAYS - 1) * 86400;
    }
  }

  // ---------------------------------------------------------------------------
  // 400 days are enough for every repeating rule
  // ---------------------------------------------------------------------------

  predicate Repeats(e: Event) {
    || e.recurrence == RECUR_DAILY
    || (e.recurrence == RECUR_WEEKLY && 1 <= e.dayOfWeek <= 7)
    || (e.recurrence == RECUR_MONTHLY && 1 <= e.dayOfMonth <= 31)
  }

  /** Every month that is too short for a day of the month is followed by one that is not. */
  lemma DayOfMonthComesAround(z: int, dom: int) returns (k: int)
    requires 1 <= dom <= 31
    ensures 1 <= k <= 92
    ensures CivilFromDays(z + k).day == dom
  {
    hide CalendarDate, DaysFromCivil;
    DaysOfCalendar(z);
    var d := CalendarDate(z);
    var first, n1 := FirstOfNextMonth(d);
    var target;
    if dom <= DaysInMonth(first.year, first.month) {
      target, k := first.(day := dom), n1 - z + dom - 1;
      SameMonth(first, dom);
    } else {
      var second, n2 := FirstOfNextMonth(first);
      target, k := second.(day := dom), n2 - z + dom - 1;
      SameMonth(second, dom);
    }
    CalendarOfDays(target);
  }

  lemma SameMonth(d: Date, dom: U8)
    ensures DaysFromCivil(d.year, d.month, dom) == DaysFromCivil(d.year, d.month, d.day) + dom - d.day
  {
  }

  lemma FirstOfNextMonth(d: Date) returns (first: Date, n: int)
    requires ValidDate(d)
    ensures ValidDate(first) && first.day == 1
    ensures first.month == (if d.month == 12 then 1 else d.month + 1)
    ensures n == DaysFromCivil(first.year, first.month, 1)
    ensures n == DaysFromCivil(d.year, d.month, d.day) + DaysInMonth(d.year, d.month) - d.day + 1
  {
    hide DaysFromCivil;
    var last := d.(day := DaysInMonth(d.year, d.month));
    SameMonth(d, last.day);
    NextDateNumber(last);
    first := NextDate(last);
    n := DaysFromCivil(first.year, first.month, 1);
  }

  lemma WeekdayComesAround(z: int, w: int) returns (k: int)
    requires 1 <= w <= 7 && DayFits(z) && DayFits(z + 7)
    ensures 1 <= k <= 7
    ensures DayOfWeek(CivilFromDays(z + k)) == w
  {
    hide CivilFromDays, DayOfWeek;
    k := (w - 1 - (z + 3)) % 7;
    k := if k == 0 then 7 else k;
    WeekdayOfNumber(z + k);
  }

  lemma RepeatsWithin(e: Event, tz: int, z: int) returns (k: int)
    requires Repeats(e) && DayFits(z) && DayFits(z + 92)
    ensures 1 <= k <= 92
    ensures e.recurrence == RECUR_DAILY ==> k == 1
    ensures e.recurrence == RECUR_WEEKLY ==> k <= 7
    ensures OccursOnDay(e, z + k, tz)
  {
    hide CivilFromDays, DayOfWeek;
    if e.recurrence == RECUR_DAILY {
      k := 1;
    } else if e.recurrence == RECUR_WEEKLY {
      k := WeekdayComesAround(z, e.dayOfWeek);
    } else {
      k := DayOfMonthComesAround(z, e.dayOfMonth);
    }
  }

  /** How far the start on the `k`-th day from today is: `sec` is the current second of the day. */
  lemma StartDistance(e: Event, now: int, tz: int, k: int) returns (sec: int)
    ensures 0 <= sec < 86400 && LocalMinute(now, tz) == sec / 60
    ensures StartOnDay(e, LocalDay(now, tz).0 + k, tz) - now == k * 86400 + e.startTime * 60 - sec
    ensures HorizonEnd(now, tz) - now == HORIZON_DAYS * 86400 - sec
  {
    LocalDayIsFloor(now, tz);
    sec := LocalDay(now, tz).1;
  }

  lemma OccursAPeriodEarlier(e: Event, tz: int, day: int)
    requires e.recurrence == RECUR_DAILY || e.recurrence == RECUR_WEEKLY
    requires DayFits(day) && DayFits(day + 7)
    requires OccursOnDay(e, day + (if e.recurrence == RECUR_DAILY then 1 else 7), tz)
    ensures OccursOnDay(e, day, tz)
  {
    hide CivilFromDays, DayOfWeek;
    WeekdayOfNumber(day);
    WeekdayOfNumber(day + 7);
  }

  /** Daily and weekly rules repeat with their period, so today's own start may be the next one. */
  lemma PeriodicStart(e: Event, now: int, tz: int) returns (k: int)
    requires e.startTime < 1440 && SearchFits(now, tz)
    requires Repeats(e) && (e.recurrence == RECUR_DAILY || e.recurrence == RECUR_WEEKLY)
    ensures OccursOnDay(e, LocalDay(now, tz).0 + k, tz)
    ensures 0 < StartOnDay(e, LocalDay(now, tz).0 + k, tz) - now <= (if e.recurrence == RECUR_DAILY then 1 else 7) * 86400
  {
    hide OccursOn, CivilFromDays, LocalDay, LocalMinute;
    var base := LocalDay(now, tz).0;
    k := RepeatsWithin(e, tz, base);
    var sec := StartDistance(e, now, tz, k);
    if k * 86400 + e.startTime * 60 - sec > (if e.recurrence == RECUR_DAILY then 1 else 7) * 86400 {
      OccursAPeriodEarlier(e, tz, base);
      k := 0;
      sec := StartDistance(e, now, tz, 0);
    }
  }

  /**
   A valid repeating event always has a next start: day 31, 29 February and leap years included.
   A daily event's is at most 24 hours off, so it never counts as beyond the 24-hour horizon.
   */
  lemma RepeatingNeverMisses(e: Event, now: int, tz: int)
    requires e.startTime < 1440 && SearchFits(now, tz)
    requires Repeats(e)
    ensures SecondsUntilNextStart(e, now, tz) <= 93 * 86400 < I64_MAX
    ensures e.recurrence == RECUR_WEEKLY ==> SecondsUntilNextStart(e, now, tz) <= 7 * 86400
    ensures e.recurrence == RECUR_DAILY ==> SecondsUntilNextStart(e, now, tz) <= 86400
  {
    hide OccursOn, CivilFromDays, LocalDay, LocalMinute, DaysFromCivil, SecondsUntilNextStart;
    NextStartIsLeast(e, now, tz);
    var k;
    if e.recurrence == RECUR_MONTHLY {
      k := RepeatsWithin(e, tz, LocalDay(now, tz).0);
    } else {
      k := PeriodicStart(e, now, tz);
    }
    var sec := StartDistance(e, now, tz, k);
    assert StartsAt(e, tz, StartOnDay(e, LocalDay(now, tz).0 + k, tz));
  }

  // ---------------------------------------------------------------------------
  // Where the years stop fitting
  // ---------------------------------------------------------------------------

  /** What the search counts as the number of its `offset`-th day, wrapped or not. */
  function CountedDay(now: int, tz: int, offset: nat): int {
    var d := CivilFromDays(BaseDay(now, tz) + offset);
    DaysFromCivil(d.year, d.month, d.day)
  }

  /** The day counted is the true one exactly when the true one's year fits. */
  lemma CountedDayIff(now: int, tz: int, offset: nat)
    requires offset <= 1
    ensures CountedDay(now, tz, offset) == LocalDay(now, tz).0 + offset <==> DayFits(LocalDay(now, tz).0 + offset)
  {
    hide CivilFromDays, DaysFromCivil, LocalDay;
    var day, base := LocalDay(now, tz).0, BaseDay(now, tz);
    DaysOfCivil(day);
    DaysOfCivil(day + offset);
    ReadDateFits(day);
    DaysOfCivil(base + offset);
    EndsMeet();
  }

  lemma DailySearch(e: Event, now: int, tz: int)
    requires e.recurrence == RECUR_DAILY
    ensures var offset := if LocalMinute(now, tz) < e.startTime then 0 else 1;
      SecondsUntilNextStart(e, now, tz) == CountedDay(now, tz, offset) * 86400 - tz * 60 + e.startTime * 60 - now
  {
    hide CivilFromDays, DaysFromCivil, LocalDay, LocalDate, LocalMinute, BaseDay;
  }

  /**
   A daily event's next start is given as within 24 hours exactly when the day it starts on has a year that
   fits int32_t: the search is right up to the last such day, and on no other.
   */
  lemma DailyIsExactIff(e: Event, now: int, tz: int)
    requires e.recurrence == RECUR_DAILY && e.startTime < 1440
    ensures 0 < SecondsUntilNextStart(e, now, tz) <= 86400
      <==> DayFits(LocalDay(now, tz).0 + (if LocalMinute(now, tz) < e.startTime then 0 else 1))
  {
    hide CountedDay, LocalDay, SecondsUntilNextStart;
    var offset := if LocalMinute(now, tz) < e.startTime then 0 else 1;
    LocalDayIsFloor(now, tz);
    var day, sec := LocalDay(now, tz).0, LocalDay(now, tz).1;
    assert now == day * 86400 - tz * 60 + sec;
    DailySearch(e, now, tz);
    CountedDayIff(now, tz, offset);
    var gap := CountedDay(now, tz, offset) - day;
    assert SecondsUntilNextStart(e, now, tz) == gap * 86400 + e.startTime * 60 - sec;
  }
}
