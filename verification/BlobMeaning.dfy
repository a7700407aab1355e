/**
 What the wire format says: which schedules a blob can carry, what a valid event is, and which events have
 the same bytes.
 */
module BlobMeaning {
  import opened Machine
  import opened CivilDate
  import opened Events
  import opened NextStart
  import opened ScheduleBlob

  // ---------------------------------------------------------------------------
  // A valid event can bind
  // ---------------------------------------------------------------------------

  /** Kinds the firmware knows: a criterion, a profile, and a sounder for every anchor that is to beep. */
  predicate KnownKinds(e: Event) {
    && e.criteria in {CRIT_GET_AWAY, CRIT_STAY_NEAR, CRIT_GET_OFF_WIFI, CRIT_GET_ON_WIFI, CRIT_PHONE_AWAY}
    && e.profile < PROFILE_COUNT
    && (Beeps(e) != [] ==> e.anchorProfile <= ANCHOR_PROFILE_HARD)
  }

  /**
   The field checks, whatever the time zone: known kinds, at most half an hour of donning grace, and a rule
   that falls on some day with a window of at least a minute that ends before midnight.
   */
  lemma ValidMeansItCanBind(e: Event, tz: int)
    ensures EventFieldsValid(e) <==>
      && KnownKinds(e) && e.donningGraceS <= 30 * 60
      && e.startTime < e.endTime < 24 * 60
      && exists day :: OccursOnDay(e, day, tz)
  {
    hide CivilFromDays, DayOfWeek, LocalDay;
    if EventFieldsValid(e) {
      var day := SomeDay(e, tz);
    } else if exists day :: OccursOnDay(e, day, tz) {
      var day :| OccursOnDay(e, day, tz);
      DayIsOnCalendar(day);
    }
  }

  /** A day the rule falls on. */
  lemma SomeDay(e: Event, tz: int) returns (day: int)
    requires EventFieldsValid(e)
    ensures OccursOnDay(e, day, tz)
  {
    hide CivilFromDays, DayOfWeek, LocalDay;
    if e.recurrence == RECUR_ONCE {
      day := LocalDay(e.referenceDate, tz).0;
    } else if e.recurrence == RECUR_WEEKLY {
      NearDaysFit();
      day := WeekdayComesAround(0, e.dayOfWeek);
    } else if e.recurrence == RECUR_MONTHLY {
      day := DayOfMonthComesAround(0, e.dayOfMonth);
    } else {
      day := 0;
    }
  }

  lemma NearDaysFit()
    ensures DayFits(0) && DayFits(7)
  {
  }

  lemma DayIsOnCalendar(day: int)
    ensures 1 <= CivilFromDays(day).day <= 31 && 1 <= DayOfWeek(CivilFromDays(day)) <= 7
  {
    hide CalendarDate, DaysFromCivil;
    DaysOfCalendar(day);
  }

  // ---------------------------------------------------------------------------
  // Which schedules a blob can carry
  // ---------------------------------------------------------------------------

  /** An event whose fields are not valid is rejected where it stands. */
  lemma InvalidEventIsRejected(e: Event, tail: seq<U8>)
    requires !EventFieldsValid(e)
    ensures ParseEvent(EncodeEvent(e) + tail) == Err(BadField)
  {
    hide EncodeEvent, EventAt, EventFieldsValid, EventEqual;
    EventReadsBack(e);
    var b := EncodeEvent(e);
    EventAtPrefix(b, tail, e.ssidLen, e.beepAnchorCount);
    assert (b + tail)[54] == b[54] && (b + tail)[FIXED_BYTES + e.ssidLen] == b[FIXED_BYTES + e.ssidLen];
    ValidityIsOfTheValue(e, EventAt(b, e.ssidLen, e.beepAnchorCount));
  }

  lemma {:induction false} EventsParseIff(s: seq<Event>, tail: seq<U8>)
    ensures ParseEvents(EncodeEvents(s) + tail, |s|).Ok? <==> AllValid(s)
    ensures !AllValid(s) ==> ParseEvents(EncodeEvents(s) + tail, |s|) == Err(BadField)
    decreases |s|
  {
    hide EncodeEvent, ParseEvent, EventFieldsValid, EventEqual;
    if s != [] {
      var rest := EncodeEvents(s[1..]) + tail;
      assert EncodeEvents(s) + tail == EncodeEvent(s[0]) + rest;
      EventsParseIff(s[1..], tail);
      AllValidCons(s);
      if EventFieldsValid(s[0]) {
        EventRoundTrip(s[0], rest);
      } else {
        InvalidEventIsRejected(s[0], rest);
      }
    }
  }

  lemma AllValidCons(s: seq<Event>)
    requires s != []
    ensures AllValid(s) <==> EventFieldsValid(s[0]) && AllValid(s[1..])
  {
    hide EventFieldsValid;
    assert forall i :: 0 < i < |s| ==> s[i] == s[1..][i - 1];
  }

  /** A serialised schedule is accepted exactly when it is within capacity and every event is valid; the errors say which. */
  lemma BlobIsAcceptedIff(s: seq<Event>, tail: seq<U8>)
    requires |s| <= U16_MAX
    ensures var r := ParseBlob(Encode(s) + tail);
      && (r.Ok? <==> |s| <= MAX_EVENTS && AllValid(s))
      && (|s| > MAX_EVENTS ==> r == Err(TooMany))
      && (|s| <= MAX_EVENTS && !AllValid(s) ==> r == Err(BadField))
  {
    hide Encode, U16Value, ParseEvents, EncodeEvents, EventFieldsValid;
    HeaderLayout(s, tail);
    EventsParseIff(s, tail);
  }

  // ---------------------------------------------------------------------------
  // Which events have the same bytes
  // ---------------------------------------------------------------------------

  /** Equal events have equal bytes and the other way round, up to the anchor id of an event that names no anchor. */
  lemma SameBytesIff(a: Event, b: Event)
    ensures EncodeEvent(a) == EncodeEvent(b) <==> EventEqual(a, b) && a.anchorId == b.anchorId
  {
    hide I64Bytes, LeBytes, Concat, FixedPart, EventAt;
    if EncodeEvent(a) == EncodeEvent(b) {
      EventReadsBack(a);
      EventReadsBack(b);
      AnchorBytes(a);
      AnchorBytes(b);
    }
    if EventEqual(a, b) && a.anchorId == b.anchorId {
      SameFixedPart(a, b);
    }
  }

  lemma AnchorBytes(e: Event)
    ensures |EncodeEvent(e)| >= FIXED_BYTES && EncodeEvent(e)[38..54] == e.anchorId
  {
    hide FixedPart, Concat;
    FixedPartLayout(e);
    assert EncodeEvent(e)[..FIXED_BYTES] == FixedPart(e);
    assert EncodeEvent(e)[38..54] == EncodeEvent(e)[..FIXED_BYTES][38..54];
  }

  lemma SameFixedPart(a: Event, b: Event)
    requires EventEqual(a, b) && a.anchorId == b.anchorId
    ensures FixedPart(a) == FixedPart(b)
  {
    hide I64Bytes, LeBytes, Beeps, Ssid;
  }
}
