/**
 Civil dates by arithmetic on day numbers (day 0 is 1970-01-01), and local time.

 The reference definition is the calendar itself: month lengths, the Gregorian leap rule and
 the date that follows a date. The division formulas of schedule.c are proved to be the
 numbering of that calendar, in both directions, and for exactly the day numbers whose year fits int32_t,
 the type the firmware keeps a year in.
 */
module CivilDate {
  import opened Machine

  datatype Date = Date(year: int, month: U8, day: U8)

  // ---------------------------------------------------------------------------
  // The calendar
  // ---------------------------------------------------------------------------

  predicate IsLeap(y: int) {
    y % 4 == 0 && (y % 100 != 0 || y % 400 == 0)
  }

  function DaysInMonth(y: int, m: int): int {
    if m == 2 then (if IsLeap(y) then 29 else 28)
    else if m == 4 || m == 6 || m == 9 || m == 11 then 30
    else 31
  }

  predicate ValidDate(d: Date) {
    1 <= d.month <= 12 && 1 <= d.day <= DaysInMonth(d.year, d.month)
  }

  function NextDate(d: Date): Date
    requires ValidDate(d)
  {
    if d.day < DaysInMonth(d.year, d.month) then d.(day := d.day + 1)
    else if d.month < 12 then Date(d.year, d.month + 1, 1)
    else Date(d.year + 1, 1, 1)
  }

  // ---------------------------------------------------------------------------
  // The firmware's formulas
  // ---------------------------------------------------------------------------

  function DaysFromCivil(y: int, m: U8, d: U8): int {
    var yy := y - (if m <= 2 then 1 else 0);
    var era := TruncDiv(if yy >= 0 then yy else yy - 399, 400);
    var yoe := yy - era * 400;
    var doy := (153 * (m + (if m > 2 then -3 else 9)) + 2) / 5 + d - 1;
    var doe := yoe * 365 + TruncDiv(yoe, 4) - TruncDiv(yoe, 100) + doy;
    era * 146097 + doe - 719468
  }

  /** impulse_civil_from_days up to its last casts: the year in 64 bits. */
  function CalendarDate(days: int): (d: Date) {
    var z := days + 719468;
    var era := TruncDiv(if z >= 0 then z else z - 146096, 146097);
    CivilInEra(era, z - era * 146097)
  }

  /** The rest of the computation: `doe` is the day of the era, so every dividend is non-negative. */
  function CivilInEra(era: int, doe: int): Date {
    var yoe := YearOfEra(doe);
    var doy := doe - (365 * yoe + yoe / 4 - yoe / 100);
    var mp := (5 * doy + 2) / 153;
    var day := doy - (153 * mp + 2) / 5 + 1;
    var month := mp + (if mp < 10 then 3 else -9);
    // The two casts to uint8_t that end the function.
    Date(yoe + era * 400 + (if month <= 2 then 1 else 0), month % 0x100, day % 0x100)
  }

  /** The whole function: the year is cast to int32_t, and a far one wraps. */
  function CivilFromDays(days: int): (d: Date) {
    CalendarDate(days).(year := ToI32(CalendarDate(days).year))
  }

  function YearOfEra(doe: int): int {
    (doe - doe / 1460 + doe / 36524 - doe / 146096) / 365
  }

  /** 1 is Monday, 7 is Sunday. */
  function DayOfWeek(d: Date): (w: U8)
    ensures 1 <= w <= 7
  {
    var dow := TruncMod(DaysFromCivil(d.year, d.month, d.day) + 3, 7);
    (if dow < 0 then dow + 7 else dow) + 1
  }

  /** Local day number and second of day of a UTC instant. */
  function LocalDay(utc: int, tz: int): (int, int) {
    var local := utc + tz * 60;
    var days, rem := TruncDiv(local, 86400), TruncMod(local, 86400);
    if rem < 0 then (days - 1, rem + 86400) else (days, rem)
  }

  function LocalDate(utc: int, tz: int): Date {
    CivilFromDays(LocalDay(utc, tz).0)
  }

  function LocalMinute(utc: int, tz: int): (m: int)
    ensures 0 <= m < 1440
  {
    LocalDayIsFloor(utc, tz);
    LocalDay(utc, tz).1 / 60
  }

  function UtcFromLocalMidnight(d: Date, tz: int): int {
    DaysFromCivil(d.year, d.month, d.day) * 86400 - tz * 60
  }

  // ---------------------------------------------------------------------------
  // The formulas number the calendar
  // ---------------------------------------------------------------------------

  /** Days before March of year `yy`, counting years from March. */
  function MarchYearStart(yy: int): int {
    365 * yy + yy / 4 - yy / 100 + yy / 400 - 719468
  }

  /** Days of the March-based year before month `mp` (0 is March, 11 is February). */
  function MonthStart(mp: int): int {
    (153 * mp + 2) / 5
  }

  function MarchYear(d: Date): int {
    d.year - (if d.month <= 2 then 1 else 0)
  }

  function MarchMonth(d: Date): int {
    d.month + (if d.month > 2 then -3 else 9)
  }

  lemma DaysFromCivilSplits(d: Date)
    ensures DaysFromCivil(d.year, d.month, d.day)
         == MarchYearStart(MarchYear(d)) + MonthStart(MarchMonth(d)) + d.day - 1
  {
    var yy := MarchYear(d);
    ShiftedTruncDivFloors(yy, 400);
    var era, yoe := yy / 400, yy % 400;
    assert yy == era * 400 + yoe;
    QuotientIs(yy, 4, 100 * era + yoe / 4, yoe % 4);
    QuotientIs(yy, 100, 4 * era + yoe / 100, yoe % 100);
  }

  lemma MarchYearLength(yy: int)
    ensures MarchYearStart(yy + 1) == MarchYearStart(yy) + (if IsLeap(yy + 1) then 366 else 365)
  {
    Successor(yy, 4);
    Successor(yy, 100);
    Successor(yy, 400);
    if (yy + 1) % 400 == 0 {
      QuotientIs(yy + 1, 100, 4 * ((yy + 1) / 400), 0);
    }
    if (yy + 1) % 100 == 0 {
      QuotientIs(yy + 1, 4, 25 * ((yy + 1) / 100), 0);
    }
  }

  lemma Successor(a: int, b: int)
    requires b > 1
    ensures (a + 1) / b == a / b + (if (a + 1) % b == 0 then 1 else 0)
  {
    assert a == (a / b) * b + a % b;
    if a % b == b - 1 {
      assert a + 1 == (a / b + 1) * b;
      QuotientIs(a + 1, b, a / b + 1, 0);
    } else {
      QuotientIs(a + 1, b, a / b, a % b + 1);
    }
  }

  /** Consecutive calendar dates get consecutive day numbers. */
  lemma NextDateNumber(d: Date)
    requires ValidDate(d)
    ensures ValidDate(NextDate(d))
    ensures var n := NextDate(d);
      DaysFromCivil(n.year, n.month, n.day) == DaysFromCivil(d.year, d.month, d.day) + 1
  {
    hide DaysFromCivil, MarchYearStart, IsLeap;
    DaysFromCivilSplits(d);
    DaysFromCivilSplits(NextDate(d));
    MarchYearLength(MarchYear(d));
  }

  lemma YearOfEraIs(c: int, q: int, r: int, doy: int, doe: int)
    requires 0 <= c < 4 && 0 <= q < 25 && 0 <= r < 4
    requires 0 <= doy <= 365
    requires doy == 365 ==> r == 3 && (q != 24 || c == 3)
    requires doe == 36524 * c + 1461 * q + 365 * r + doy
    ensures 0 <= doe < 146097
    ensures YearOfEra(doe) == 100 * c + 4 * q + r
  {
    var carry := if 24 * c + q + 365 * r + doy >= 1460 then 1 else 0;
    QuotientIs(doe, 1460, 25 * c + q + carry, 24 * c + q + 365 * r + doy - 1460 * carry);
    if doe == 146096 {
      QuotientIs(doe, 36524, 4, 0);
      QuotientIs(doe, 146096, 1, 0);
    } else {
      QuotientIs(doe, 36524, c, 1461 * q + 365 * r + doy);
      QuotientIs(doe, 146096, 0, doe);
    }
    QuotientIs(365 * (100 * c + 4 * q + r) + doy - carry, 365, 100 * c + 4 * q + r, doy - carry);
  }

  /** Day of the March-based year: nothing past the last day of its last month. */
  lemma DayOfMarchYear(d: Date)
    requires ValidDate(d)
    ensures var doy := MonthStart(MarchMonth(d)) + d.day - 1;
      && 0 <= doy <= 365
      && (doy == 365 ==> IsLeap(MarchYear(d) + 1))
      && (5 * doy + 2) / 153 == MarchMonth(d)
  {
  }

  /** What is read from a number split by era, century, four-year cycle, year, month and day. */
  lemma CivilOfParts(era: int, c: int, q: int, r: int, mp: int, day: int)
    requires 0 <= c < 4 && 0 <= q < 25 && 0 <= r < 4
    requires 0 <= mp < 12 && 1 <= day <= 31
    requires var doy := MonthStart(mp) + day - 1;
      && 0 <= doy <= 365
      && (doy == 365 ==> r == 3 && (q != 24 || c == 3))
      && (5 * doy + 2) / 153 == mp
    ensures var doe := 36524 * c + 1461 * q + 365 * r + MonthStart(mp) + day - 1;
      && 0 <= doe < 146097
      && CivilInEra(era, doe) == Date(400 * era + 100 * c + 4 * q + r + (if mp >= 10 then 1 else 0),
                                      if mp < 10 then mp + 3 else mp - 9, day)
  {
    hide YearOfEra;
    var doy := MonthStart(mp) + day - 1;
    var doe := 36524 * c + 1461 * q + 365 * r + doy;
    YearOfEraIs(c, q, r, doy, doe);
    YearDays(c, q, r);
    FromParts(era, doe, 100 * c + 4 * q + r, doy, mp, day);
  }

  /** The days of an era before its year `100 c + 4 q + r`. */
  lemma YearDays(c: int, q: int, r: int)
    requires 0 <= c < 4 && 0 <= q < 25 && 0 <= r < 4
    ensures var yoe := 100 * c + 4 * q + r; 365 * yoe + yoe / 4 - yoe / 100 == 36524 * c + 1461 * q + 365 * r
  {
    QuotientIs(100 * c + 4 * q + r, 4, 25 * c + q, r);
    QuotientIs(100 * c + 4 * q + r, 100, c, 4 * q + r);
  }

  lemma FromParts(era: int, doe: int, yoe: int, doy: int, mp: int, day: int)
    requires YearOfEra(doe) == yoe && doe - (365 * yoe + yoe / 4 - yoe / 100) == doy
    requires 0 <= mp < 12 && 1 <= day <= 31 && doy == MonthStart(mp) + day - 1 && (5 * doy + 2) / 153 == mp
    ensures CivilInEra(era, doe) == Date(yoe + era * 400 + (if mp >= 10 then 1 else 0), if mp < 10 then mp + 3 else mp - 9, day)
  {
    hide YearOfEra;
  }

  lemma EraOfNumber(days: int, era: int, doe: int)
    requires days == era * 146097 - 719468 + doe && 0 <= doe < 146097
    ensures CalendarDate(days) == CivilInEra(era, doe)
  {
    hide CivilInEra;
    ShiftedTruncDivFloors(days + 719468, 146097);
    QuotientIs(days + 719468, 146097, era, doe);
  }

  /** Reading a number back gives the date it was made from. */
  lemma CalendarOfDays(d: Date)
    requires ValidDate(d)
    ensures CalendarDate(DaysFromCivil(d.year, d.month, d.day)) == d
  {
    hide CalendarDate, DaysFromCivil, CivilInEra;
    var yy, doy := MarchYear(d), MonthStart(MarchMonth(d)) + d.day - 1;
    var era, c, q, r := SplitYear(yy);
    DayOfMarchYear(d);
    if doy == 365 {
      LeapWithinEra(yy, era, c, q, r);
    }
    DaysFromCivilSplits(d);
    CivilOfParts(era, c, q, r, MarchMonth(d), d.day);
    EraOfNumber(DaysFromCivil(d.year, d.month, d.day), era, 36524 * c + 1461 * q + 365 * r + doy);
  }

  /** The same of the firmware's function, for every year it can hold. */
  lemma CivilOfDays(d: Date)
    requires ValidDate(d) && HoldsYear(d.year)
    ensures CivilFromDays(DaysFromCivil(d.year, d.month, d.day)) == d
  {
    hide CalendarDate, DaysFromCivil;
    CalendarOfDays(d);
  }

  lemma SplitYear(yy: int) returns (era: int, c: int, q: int, r: int)
    ensures 0 <= c < 4 && 0 <= q < 25 && 0 <= r < 4
    ensures yy == 400 * era + 100 * c + 4 * q + r
    ensures MarchYearStart(yy) == era * 146097 - 719468 + 36524 * c + 1461 * q + 365 * r
  {
    era := yy / 400;
    c, q, r := (yy % 400) / 100, ((yy % 400) % 100) / 4, (yy % 400) % 4;
    assert yy == 400 * era + yy % 400;
    QuotientIs(yy % 400, 4, 25 * c + q, r);
    QuotientIs(yy, 4, 100 * era + 25 * c + q, r);
    QuotientIs(yy, 100, 4 * era + c, 4 * q + r);
  }

  lemma LeapWithinEra(yy: int, era: int, c: int, q: int, r: int)
    requires 0 <= c < 4 && 0 <= q < 25 && 0 <= r < 4
    requires yy == 400 * era + 100 * c + 4 * q + r
    requires IsLeap(yy + 1)
    ensures r == 3 && (q != 24 || c == 3)
  {
    QuotientIs(yy, 4, 100 * era + 25 * c + q, r);
    Successor(yy, 4);
    assert r == 3;
    if q == 24 {
      assert yy + 1 == (4 * era + c + 1) * 100;
      QuotientIs(yy + 1, 100, 4 * era + c + 1, 0);
      if c != 3 {
        QuotientIs(yy + 1, 400, era, 100 * (c + 1));
      }
    }
  }

  /** Every day number is some calendar date: walk forward from the start of its 400-year era. */
  lemma {:induction false} DateOfNumber(era: int, k: nat) returns (d: Date)
    ensures ValidDate(d)
    ensures DaysFromCivil(d.year, d.month, d.day) == era * 146097 - 719468 + k
  {
    if k == 0 {
      d := Date(400 * era, 3, 1);
      DaysFromCivilSplits(d);
      QuotientIs(400 * era, 4, 100 * era, 0);
      QuotientIs(400 * era, 100, 4 * era, 0);
      QuotientIs(400 * era, 400, era, 0);
    } else {
      var p := DateOfNumber(era, k - 1);
      NextDateNumber(p);
      d := NextDate(p);
    }
  }

  /** The other direction: the date read from any number is valid and has that number. */
  lemma DaysOfCalendar(z: int)
    ensures ValidDate(CalendarDate(z))
    ensures var d := CalendarDate(z); DaysFromCivil(d.year, d.month, d.day) == z
  {
    hide CalendarDate, DaysFromCivil;
    var era := (z + 719468) / 146097;
    assert z + 719468 == era * 146097 + (z + 719468) % 146097;
    var d := DateOfNumber(era, (z + 719468) % 146097);
    CalendarOfDays(d);
  }

  // ---------------------------------------------------------------------------
  // The years an int32_t can hold
  // ---------------------------------------------------------------------------

  predicate HoldsYear(y: int) {
    -0x8000_0000 <= y < 0x8000_0000
  }

  /** 1 January of year -2147483648, and 31 December of year 2147483647. */
  const FIRST_DAY := -784353015833
  const LAST_DAY := 784351576776

  predicate DayFits(z: int) {
    FIRST_DAY <= z <= LAST_DAY
  }

  /** Every year is at least 365 days. */
  lemma {:induction false} YearsGrow(a: int, b: int)
    requires a <= b
    ensures MarchYearStart(a) + 365 * (b - a) <= MarchYearStart(b)
    decreases b - a
  {
    hide MarchYearStart;
    if a < b {
      YearsGrow(a, b - 1);
      MarchYearLength(b - 1);
    }
  }

  /** The numbers of a year's days lie between its first and its last. */
  lemma YearSpan(d: Date)
    requires 1 <= d.month <= 12 && 1 <= d.day <= 31
    ensures MarchYearStart(d.year - 1) + 306 <= DaysFromCivil(d.year, d.month, d.day) < MarchYearStart(d.year) + 306
  {
    hide DaysFromCivil, MarchYearStart, IsLeap;
    DaysFromCivilSplits(d);
    MarchYearLength(d.year - 1);
  }

  lemma EndsOfInt32()
    ensures MarchYearStart(-0x8000_0000 - 1) + 306 == FIRST_DAY
    ensures MarchYearStart(0x8000_0000 - 1) + 305 == LAST_DAY
  {
  }

  /** A day number fits exactly when its calendar year does. */
  lemma DayFitsIff(z: int)
    ensures DayFits(z) <==> HoldsYear(CalendarDate(z).year)
  {
    hide CalendarDate, DaysFromCivil, MarchYearStart;
    var d := CalendarDate(z);
    DaysOfCalendar(z);
    YearSpan(d);
    EndsOfInt32();
    if d.year < -0x8000_0000 {
      YearsGrow(d.year, -0x8000_0000 - 1);
    } else {
      YearsGrow(-0x8000_0000 - 1, d.year - 1);
    }
    if d.year < 0x8000_0000 {
      YearsGrow(d.year, 0x8000_0000 - 1);
    } else {
      YearsGrow(0x8000_0000 - 1, d.year - 1);
    }
  }

  /** A different year is a different number. */
  lemma YearMatters(d: Date, year: int)
    requires year != d.year
    ensures DaysFromCivil(year, d.month, d.day) != DaysFromCivil(d.year, d.month, d.day)
  {
    hide DaysFromCivil, MarchYearStart;
    var e := d.(year := year);
    DaysFromCivilSplits(d);
    DaysFromCivilSplits(e);
    if MarchYear(d) < MarchYear(e) {
      YearsGrow(MarchYear(d), MarchYear(e));
    } else {
      YearsGrow(MarchYear(e), MarchYear(d));
    }
  }

  /**
   The date read from a day number has that number exactly when its year fits int32_t, and is then a valid
   calendar date.
   */
  lemma DaysOfCivil(z: int)
    ensures var d := CivilFromDays(z); DaysFromCivil(d.year, d.month, d.day) == z <==> DayFits(z)
    ensures DayFits(z) ==> ValidDate(CivilFromDays(z)) && CivilFromDays(z) == CalendarDate(z)
  {
    hide CalendarDate, DaysFromCivil;
    var d := CalendarDate(z);
    DaysOfCalendar(z);
    DayFitsIff(z);
    if !DayFits(z) {
      YearMatters(d, ToI32(d.year));
    }
  }

  /** Wrapped or not, the date read from a day number has a number that fits. */
  lemma ReadDateFits(z: int)
    ensures var d := CivilFromDays(z); DayFits(DaysFromCivil(d.year, d.month, d.day))
  {
    hide CalendarDate, DaysFromCivil, MarchYearStart;
    var d := CivilFromDays(z);
    DaysOfCalendar(z);
    YearSpan(d);
    EndsOfInt32();
    YearsGrow(-0x8000_0000 - 1, d.year - 1);
    YearsGrow(d.year, 0x8000_0000 - 1);
  }

  /** The day before the first reads as the last, and the day after the last as the first. */
  lemma EndsMeet()
    ensures CivilFromDays(FIRST_DAY - 1) == Date(0x7FFF_FFFF, 12, 31) && DaysFromCivil(0x7FFF_FFFF, 12, 31) == LAST_DAY
    ensures CivilFromDays(LAST_DAY + 1) == Date(-0x8000_0000, 1, 1) && DaysFromCivil(-0x8000_0000, 1, 1) == FIRST_DAY
  {
    hide CalendarDate, DaysFromCivil;
    var before, after := Date(-0x8000_0000 - 1, 12, 31), Date(0x8000_0000, 1, 1);
    DaysFromCivilSplits(before);
    DaysFromCivilSplits(after);
    DaysFromCivilSplits(Date(0x7FFF_FFFF, 12, 31));
    DaysFromCivilSplits(Date(-0x8000_0000, 1, 1));
    CalendarOfDays(before);
    CalendarOfDays(after);
  }

  /** A day number the schedule format can carry, and whose year wraps: it reads as 1 January 2026. */
  lemma FarYearWraps()
    ensures DaysFromCivil(0x1_0000_07EA, 1, 1) * 86400 < 0x8000_0000_0000_0000
    ensures CivilFromDays(DaysFromCivil(0x1_0000_07EA, 1, 1)) == Date(2026, 1, 1)
  {
    hide CalendarDate, DaysFromCivil;
    var d := Date(0x1_0000_07EA, 1, 1);
    CalendarOfDays(d);
    DaysFromCivilSplits(d);
  }

  /** Consecutive day numbers read back as consecutive calendar dates, as long as the years fit. */
  lemma ConsecutiveDates(z: int)
    requires DayFits(z) && DayFits(z + 1)
    ensures ValidDate(CivilFromDays(z))
    ensures CivilFromDays(z + 1) == NextDate(CivilFromDays(z))
  {
    hide CalendarDate, CivilFromDays, DaysFromCivil;
    DaysOfCivil(z);
    DaysOfCivil(z + 1);
    NextDateNumber(CivilFromDays(z));
    CalendarOfDays(NextDate(CivilFromDays(z)));
  }

  lemma EpochNumber()
    ensures DaysFromCivil(1970, 1, 1) == 0
  {
  }

  lemma EpochIsDayZero()
    ensures CivilFromDays(0) == Date(1970, 1, 1)
  {
    hide CivilFromDays, DaysFromCivil;
    EpochNumber();
    CivilOfDays(Date(1970, 1, 1));
  }

  /** The weekday of day number `z`, with no date in between. */
  lemma WeekdayOfNumber(z: int)
    requires DayFits(z)
    ensures DayOfWeek(CivilFromDays(z)) == (z + 3) % 7 + 1
  {
    hide CivilFromDays, DaysFromCivil;
    DaysOfCivil(z);
    SteppedTruncModFloors(z + 3, 7);
  }

  /** Weekdays cycle 1..7 from one day to the next; the epoch was a Thursday. */
  lemma WeekdaysCycle(z: int)
    requires DayFits(z) && DayFits(z + 1)
    ensures DayOfWeek(CivilFromDays(z + 1)) == DayOfWeek(CivilFromDays(z)) % 7 + 1
    ensures DayOfWeek(CivilFromDays(0)) == 4
  {
    hide CivilFromDays, DaysFromCivil, DayOfWeek;
    WeekdayOfNumber(z);
    WeekdayOfNumber(z + 1);
    WeekdayOfNumber(0);
  }

  // ---------------------------------------------------------------------------
  // Local time
  // ---------------------------------------------------------------------------

  lemma LocalDayIsFloor(utc: int, tz: int)
    ensures LocalDay(utc, tz) == ((utc + tz * 60) / 86400, (utc + tz * 60) % 86400)
    ensures 0 <= LocalDay(utc, tz).1 < 86400
  {
    SteppedTruncModFloors(utc + tz * 60, 86400);
  }

  /** The local date of this instant fits. */
  predicate DateFits(utc: int, tz: int) {
    DayFits(LocalDay(utc, tz).0)
  }

  /** Local midnight of the local date, plus the minute of day, is the UTC minute again, exactly when the year fits. */
  lemma LocalTimeRoundTrip(utc: int, tz: int)
    ensures DateFits(utc, tz) ==> ValidDate(LocalDate(utc, tz))
    ensures UtcFromLocalMidnight(LocalDate(utc, tz), tz) + 60 * LocalMinute(utc, tz) == utc - utc % 60 <==> DateFits(utc, tz)
  {
    hide CivilFromDays, DaysFromCivil;
    LocalDayIsFloor(utc, tz);
    var day, sec := LocalDay(utc, tz).0, LocalDay(utc, tz).1;
    DaysOfCivil(day);
    assert utc == day * 86400 - tz * 60 + sec;
    QuotientIs(utc, 60, day * 1440 - tz + sec / 60, sec % 60);
  }

  /** ... and an instant built from a date and a minute of day reads back as that date and minute. */
  lemma LocalTimeReadsBack(d: Date, minute: int, second: int, tz: int)
    requires ValidDate(d) && HoldsYear(d.year) && 0 <= minute < 1440 && 0 <= second < 60
    ensures var utc := UtcFromLocalMidnight(d, tz) + 60 * minute + second;
      LocalDate(utc, tz) == d && LocalMinute(utc, tz) == minute
  {
    hide CivilFromDays, DaysFromCivil;
    var day := DaysFromCivil(d.year, d.month, d.day);
    var utc := UtcFromLocalMidnight(d, tz) + 60 * minute + second;
    LocalDayIsFloor(utc, tz);
    QuotientIs(utc + tz * 60, 86400, day, 60 * minute + second);
    CivilOfDays(d);
  }
}
