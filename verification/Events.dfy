/**
 The event record of a schedule. Field widths, the fixed-size buffers behind the SSID and the
 beep anchors, and the unused bytes in them are kept, because "equal" ignores those bytes.
 */
module Events {
  import opened Machine

  const UUID_LEN := 16
  const MAX_SSID_LEN := 32
  const MAX_BEEP_ANCHORS := 8

  type Uuid = s: seq<U8> | |s| == UUID_LEN witness seq(UUID_LEN, _ => 0)
  type SsidBuffer = s: seq<U8> | |s| == MAX_SSID_LEN + 1 witness seq(MAX_SSID_LEN + 1, _ => 0)
  type BeepTable = s: seq<Uuid> | |s| == MAX_BEEP_ANCHORS witness seq<Uuid>(MAX_BEEP_ANCHORS, _ => ZeroUuid())
  type SsidLen = n: U8 | n <= MAX_SSID_LEN
  type BeepCount = n: U8 | n <= MAX_BEEP_ANCHORS

  function ZeroUuid(): Uuid { seq(UUID_LEN, _ => 0) }
  function EmptySsid(): SsidBuffer { seq(MAX_SSID_LEN + 1, _ => 0) }
  function EmptyBeeps(): BeepTable { seq<Uuid>(MAX_BEEP_ANCHORS, _ => ZeroUuid()) }

  const RECUR_ONCE: U8 := 0
  const RECUR_DAILY: U8 := 1
  const RECUR_WEEKLY: U8 := 2
  const RECUR_MONTHLY: U8 := 3

  const CRIT_GET_AWAY: U8 := 0
  const CRIT_STAY_NEAR: U8 := 1
  const CRIT_GET_OFF_WIFI: U8 := 2
  const CRIT_GET_ON_WIFI: U8 := 3
  const CRIT_PHONE_AWAY: U8 := 4

  const PROFILE_COUNT: U8 := 9

  const ANCHOR_PROFILE_HARD: U8 := 2
  const ANCHOR_PROFILE_NONE: U8 := 0xFF

  datatype Event = Event(
    id: Uuid,
    referenceDate: I64,       // Unix seconds, UTC
    startTime: U16,           // minutes since local midnight
    endTime: U16,
    recurrence: U8,
    dayOfWeek: U8,
    dayOfMonth: U8,
    criteria: U8,
    profile: U8,
    anchorProfile: U8,
    negate: bool,             // cancels an occurrence instead of being one
    donningGraceS: U16,
    hasAnchorId: bool,
    anchorId: Uuid,
    ssidLen: SsidLen,
    wifiSsid: SsidBuffer,     // only the first ssidLen bytes are part of the value
    beepAnchorCount: BeepCount,
    beepAnchors: BeepTable    // only the first beepAnchorCount entries are part of the value
  )

  function Ssid(e: Event): seq<U8> {
    e.wifiSsid[..e.ssidLen]
  }

  function Beeps(e: Event): seq<Uuid> {
    e.beepAnchors[..e.beepAnchorCount]
  }

  predicate IsAnchorBased(criteria: U8) {
    criteria == CRIT_GET_AWAY || criteria == CRIT_STAY_NEAR || criteria == CRIT_PHONE_AWAY
  }

  /** impulse_event_equal: equality of the values two records carry, not of their bytes. */
  predicate EventEqual(a: Event, b: Event) {
    && a.id == b.id
    && a.referenceDate == b.referenceDate
    && a.startTime == b.startTime && a.endTime == b.endTime
    && a.recurrence == b.recurrence
    && a.dayOfWeek == b.dayOfWeek && a.dayOfMonth == b.dayOfMonth
    && a.criteria == b.criteria && a.profile == b.profile
    && a.anchorProfile == b.anchorProfile && a.negate == b.negate
    && a.donningGraceS == b.donningGraceS
    && a.hasAnchorId == b.hasAnchorId
    && a.ssidLen == b.ssidLen
    && a.beepAnchorCount == b.beepAnchorCount
    && (a.hasAnchorId ==> a.anchorId == b.anchorId)
    && Ssid(a) == Ssid(b)
    && Beeps(a) == Beeps(b)
  }

  // ---------------------------------------------------------------------------
  // A stored schedule as a list of events
  // ---------------------------------------------------------------------------

  const MAX_EVENTS := 64

  ghost predicate DistinctIds(s: seq<Event>) {
    forall i, j :: 0 <= i < j < |s| ==> s[i].id != s[j].id
  }

  /** Index of the first event with this id, or |s|: find_event. */
  function IndexOf(s: seq<Event>, id: Uuid): (i: nat)
    ensures i <= |s|
    ensures i < |s| ==> s[i].id == id
    ensures forall k :: 0 <= k < i ==> s[k].id != id
  {
    if s == [] then 0
    else if s[0].id == id then 0
    else 1 + IndexOf(s[1..], id)
  }

  predicate Has(s: seq<Event>, id: Uuid) {
    IndexOf(s, id) < |s|
  }

  function Find(s: seq<Event>, id: Uuid): (e: Option<Event>)
    ensures e.Some? <==> Has(s, id)
    ensures e.Some? ==> e.value in s && e.value.id == id
  {
    var i := IndexOf(s, id);
    if i < |s| then Some(s[i]) else None
  }

  function EmptyEvent(): Event {
    Event(ZeroUuid(), 0, 0, 0, 0, 0, 0, 0, 0, 0, false, 0, false, ZeroUuid(), 0, EmptySsid(), 0, EmptyBeeps())
  }

  /** The fixed-capacity record the firmware keeps: a count and a table of which a prefix is in use. */
  class Schedule {
    var count: nat
    const events: array<Event>
    var crc32: bv32

    ghost predicate Valid()
      reads this
    {
      events.Length == MAX_EVENTS && count <= MAX_EVENTS
    }

    ghost function Contents(): (s: seq<Event>)
      requires Valid()
      reads this, events
      ensures |s| <= MAX_EVENTS
    {
      events[..count]
    }

    constructor ()
      ensures Valid() && Contents() == []
      ensures fresh(events)
    {
      count, crc32 := 0, 0;
      events := new Event[MAX_EVENTS](_ => EmptyEvent());
    }

    /** find_event. */
    method FindIndex(id: Uuid) returns (i: nat)
      requires Valid()
      ensures i == IndexOf(Contents(), id)
    {
      i := 0;
      while i < count
        invariant i <= count
        invariant IndexOf(Contents(), id) == i + IndexOf(Contents()[i..], id)
      {
        if events[i].id == id {
          return;
        }
        i := i + 1;
      }
    }
  }
}
