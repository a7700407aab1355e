/**
 The schedule wire format: what a blob means, and the cursor and writer that read and write it.

 The reference definition is the layout: fields at fixed offsets for reading, a concatenation of
 fields for writing. The sticky-overrun cursor and the bounded writer are proved to be exactly that,
 and the two definitions are proved to be inverses.
 */
module ScheduleBlob {
  import opened Machine
  import opened Events
  import Crc32

  const FORMAT_VERSION: U8 := 2

  datatype BlobError = BadVersion | Truncated | TooMany | BadField

  datatype Parsed<+T> = Ok(value: T) | Err(error: BlobError)

  // ---------------------------------------------------------------------------
  // Little-endian numbers
  // ---------------------------------------------------------------------------

  function Pow256(n: nat): nat {
    if n == 0 then 1 else 256 * Pow256(n - 1)
  }

  function LeBytes(v: nat, n: nat): (b: seq<U8>)
    ensures |b| == n
    decreases n
  {
    if n == 0 then [] else [v % 256] + LeBytes(v / 256, n - 1)
  }

  function LeValue(b: seq<U8>): (v: nat)
    decreases |b|
  {
    if b == [] then 0 else b[0] + 256 * LeValue(b[1..])
  }

  lemma {:induction false} LeRoundTrip(v: nat, n: nat)
    requires v < Pow256(n)
    ensures LeValue(LeBytes(v, n)) == v
    decreases n
  {
    if n > 0 {
      LeRoundTrip(v / 256, n - 1);
      assert LeBytes(v, n)[1..] == LeBytes(v / 256, n - 1);
    }
  }

  lemma {:induction false} LeValueBound(b: seq<U8>)
    ensures LeValue(b) < Pow256(|b|)
    decreases |b|
  {
    if b != [] {
      LeValueBound(b[1..]);
    }
  }

  /** One more byte, read from the top down. */
  lemma LeValueStep(b: seq<U8>, i: nat)
    requires i < |b|
    ensures LeValue(b[i..]) == b[i] + 256 * LeValue(b[i + 1..])
  {
    assert b[i..][1..] == b[i + 1..];
  }

  lemma NoBytes(b: seq<U8>)
    ensures LeValue(b[|b|..]) == 0
  {
  }

  lemma EightBytesFit(b: seq<U8>)
    requires |b| == 8
    ensures LeValue(b) < 0x1_0000_0000_0000_0000
  {
    hide LeValue, Pow256;
    LeValueBound(b);
    LeSizes();
  }

  lemma LeSizes()
    ensures Pow256(2) == 0x1_0000
    ensures Pow256(8) == 0x1_0000_0000_0000_0000
  {
    assert Pow256(4) == 256 * 256 * 256 * 256;
    assert Pow256(8) == 256 * 256 * 256 * 256 * Pow256(4);
  }

  /** Two's complement in eight bytes. */
  function I64Bytes(v: I64): (b: seq<U8>)
    ensures |b| == 8
  {
    LeBytes(if v < 0 then v + 0x1_0000_0000_0000_0000 else v, 8)
  }

  function I64Value(b: seq<U8>): I64
    requires |b| == 8
  {
    LeValueBound(b);
    LeSizes();
    var u := LeValue(b);
    if u >= 0x8000_0000_0000_0000 then u - 0x1_0000_0000_0000_0000 else u
  }

  function U16Value(b: seq<U8>): U16
    requires |b| == 2
  {
    LeValueBound(b);
    LeSizes();
    LeValue(b)
  }

  lemma I64RoundTrip(v: I64)
    ensures I64Value(I64Bytes(v)) == v
  {
    LeSizes();
    LeRoundTrip(if v < 0 then v + 0x1_0000_0000_0000_0000 else v, 8);
  }

  lemma U16RoundTrip(v: U16)
    ensures U16Value(LeBytes(v, 2)) == v
  {
    LeSizes();
    LeRoundTrip(v, 2);
  }

  // ---------------------------------------------------------------------------
  // The layout, for writing
  // ---------------------------------------------------------------------------

  function Flag(b: bool): U8 { if b then 1 else 0 }

  const FIXED_BYTES := 55

  /** Everything up to and including the SSID length. */
  function FixedPart(e: Event): (b: seq<U8>)
    ensures |b| == FIXED_BYTES
  {
    e.id + I64Bytes(e.referenceDate) + LeBytes(e.startTime, 2) + LeBytes(e.endTime, 2)
      + [e.recurrence, e.dayOfWeek, e.dayOfMonth, e.criteria, e.profile, e.anchorProfile, Flag(e.negate)]
      + LeBytes(e.donningGraceS, 2) + [Flag(e.hasAnchorId)] + e.anchorId + [e.ssidLen]
  }

  function Concat(us: seq<Uuid>): (b: seq<U8>)
    ensures |b| == UUID_LEN * |us|
  {
    if us == [] then [] else us[0] + Concat(us[1..])
  }

  function EncodeEvent(e: Event): seq<U8> {
    FixedPart(e) + Ssid(e) + [e.beepAnchorCount] + Concat(Beeps(e))
  }

  function EncodeEvents(s: seq<Event>): seq<U8> {
    if s == [] then [] else EncodeEvent(s[0]) + EncodeEvents(s[1..])
  }

  function Encode(s: seq<Event>): seq<U8> {
    [FORMAT_VERSION] + LeBytes(|s|, 2) + EncodeEvents(s)
  }

  // ---------------------------------------------------------------------------
  // The layout, for reading
  // ---------------------------------------------------------------------------

  predicate EventFieldsValid(e: Event) {
    && e.recurrence <= RECUR_MONTHLY
    && e.criteria <= CRIT_PHONE_AWAY
    && e.profile < PROFILE_COUNT
    && e.startTime <= 1439 && e.endTime <= 1439
    && e.startTime < e.endTime
    && (e.recurrence == RECUR_WEEKLY ==> 1 <= e.dayOfWeek <= 7)
    && (e.recurrence == RECUR_MONTHLY ==> 1 <= e.dayOfMonth <= 31)
    && e.donningGraceS <= 1800
    && e.beepAnchorCount <= MAX_BEEP_ANCHORS
    && (e.beepAnchorCount > 0 ==> e.anchorProfile <= ANCHOR_PROFILE_HARD)
  }

  function PadSsid(b: seq<U8>): SsidBuffer
    requires |b| <= MAX_SSID_LEN
  {
    b + seq(MAX_SSID_LEN + 1 - |b|, _ => 0)
  }

  function Chunks(b: seq<U8>, n: nat): (us: seq<Uuid>)
    requires |b| == UUID_LEN * n
    ensures |us| == n
  {
    if n == 0 then [] else [b[..UUID_LEN]] + Chunks(b[UUID_LEN..], n - 1)
  }

  function PadBeeps(us: seq<Uuid>): BeepTable
    requires |us| <= MAX_BEEP_ANCHORS
  {
    us + seq<Uuid>(MAX_BEEP_ANCHORS - |us|, _ => ZeroUuid())
  }

  /** The fields at fixed offsets. */
  function FixedFieldsAt(b: seq<U8>): Event
    requires |b| >= FIXED_BYTES
  {
    Event(b[..16], I64Value(b[16..24]), U16Value(b[24..26]), U16Value(b[26..28]),
          b[28], b[29], b[30], b[31], b[32], b[33], b[34] != 0,
          U16Value(b[35..37]), b[37] != 0, b[38..54],
          0, EmptySsid(), 0, EmptyBeeps())
  }

  /** The same fixed fields with the variable tail filled in, zero-padded to the buffers' sizes. */
  function WithTail(e: Event, ssid: seq<U8>, beeps: seq<Uuid>): Event
    requires |ssid| <= MAX_SSID_LEN && |beeps| <= MAX_BEEP_ANCHORS
  {
    Event(e.id, e.referenceDate, e.startTime, e.endTime, e.recurrence, e.dayOfWeek, e.dayOfMonth,
          e.criteria, e.profile, e.anchorProfile, e.negate, e.donningGraceS, e.hasAnchorId, e.anchorId,
          |ssid|, PadSsid(ssid), |beeps|, PadBeeps(beeps))
  }

  /** The event at the head of `b`, given its two counts. */
  function EventAt(b: seq<U8>, ssidLen: SsidLen, beeps: BeepCount): Event
    requires |b| >= FIXED_BYTES + ssidLen + 1 + UUID_LEN * beeps
  {
    var tail := FIXED_BYTES + ssidLen + 1;
    WithTail(FixedFieldsAt(b), b[FIXED_BYTES..FIXED_BYTES + ssidLen], Chunks(b[tail..tail + UUID_LEN * beeps], beeps))
  }

  /** One event off the front of the bytes, and the bytes after it. */
  function ParseEvent(b: seq<U8>): Parsed<(Event, seq<U8>)> {
    if |b| < FIXED_BYTES then Err(Truncated)
    else if b[54] > MAX_SSID_LEN then Err(BadField)
    else if |b| <= FIXED_BYTES + b[54] then Err(Truncated)
    else if b[FIXED_BYTES + b[54]] > MAX_BEEP_ANCHORS then Err(BadField)
    else
      var n := FIXED_BYTES + b[54] + 1 + UUID_LEN * b[FIXED_BYTES + b[54]];
      if |b| < n then Err(Truncated)
      else
        var e := EventAt(b, b[54], b[FIXED_BYTES + b[54]]);
        if EventFieldsValid(e) then Ok((e, b[n..])) else Err(BadField)
  }

  function ParseEvents(b: seq<U8>, count: nat): Parsed<seq<Event>>
    decreases count
  {
    if count == 0 then Ok([])
    else
      match ParseEvent(b)
      case Err(x) => Err(x)
      case Ok((e, rest)) =>
        match ParseEvents(rest, count - 1)
        case Err(x) => Err(x)
        case Ok(es) => Ok([e] + es)
  }

  function ParseBlob(b: seq<U8>): Parsed<seq<Event>> {
    if |b| < 3 then Err(Truncated)
    else if b[0] != FORMAT_VERSION then Err(BadVersion)
    else if U16Value(b[1..3]) > MAX_EVENTS then Err(TooMany)
    else ParseEvents(b[3..], U16Value(b[1..3]))
  }

  // ---------------------------------------------------------------------------
  // Reading undoes writing
  // ---------------------------------------------------------------------------

  lemma FixedPartLayout(e: Event)
    ensures var b := FixedPart(e);
      && b[..16] == e.id && b[16..24] == I64Bytes(e.referenceDate)
      && b[24..26] == LeBytes(e.startTime, 2) && b[26..28] == LeBytes(e.endTime, 2)
      && b[28] == e.recurrence && b[29] == e.dayOfWeek && b[30] == e.dayOfMonth
      && b[31] == e.criteria && b[32] == e.profile && b[33] == e.anchorProfile && b[34] == Flag(e.negate)
      && b[35..37] == LeBytes(e.donningGraceS, 2) && b[37] == Flag(e.hasAnchorId)
      && b[38..54] == e.anchorId && b[54] == e.ssidLen
  {
    hide I64Bytes, LeBytes, Flag;
  }

  lemma {:induction false} ChunksOfConcat(us: seq<Uuid>)
    ensures Chunks(Concat(us), |us|) == us
  {
    if us != [] {
      ChunksOfConcat(us[1..]);
      assert Concat(us)[..UUID_LEN] == us[0] && Concat(us)[UUID_LEN..] == Concat(us[1..]);
    }
  }

  lemma EventReadsBack(e: Event)
    ensures |EncodeEvent(e)| == FIXED_BYTES + e.ssidLen + 1 + UUID_LEN * e.beepAnchorCount
    ensures EncodeEvent(e)[54] == e.ssidLen && EncodeEvent(e)[FIXED_BYTES + e.ssidLen] == e.beepAnchorCount
    ensures EventEqual(e, EventAt(EncodeEvent(e), e.ssidLen, e.beepAnchorCount))
  {
    hide I64Bytes, LeBytes, I64Value, U16Value, Chunks, Concat, FixedPart;
    var b := EncodeEvent(e);
    FixedPartLayout(e);
    I64RoundTrip(e.referenceDate);
    U16RoundTrip(e.startTime);
    U16RoundTrip(e.endTime);
    U16RoundTrip(e.donningGraceS);
    ChunksOfConcat(Beeps(e));
    assert b[..FIXED_BYTES] == FixedPart(e);
    forall i, j | 0 <= i <= j <= FIXED_BYTES
      ensures b[i..j] == FixedPart(e)[i..j]
    {
    }
    assert b[FIXED_BYTES..FIXED_BYTES + e.ssidLen] == Ssid(e);
    var tail := FIXED_BYTES + e.ssidLen + 1;
    assert b[tail..tail + UUID_LEN * e.beepAnchorCount] == Concat(Beeps(e));
    assert b[..16] == FixedPart(e)[..16];
  }

  /** Validity looks only at the value. */
  lemma ValidityIsOfTheValue(a: Event, b: Event)
    requires EventEqual(a, b)
    ensures EventFieldsValid(a) == EventFieldsValid(b)
  {
  }

  /** The bytes after an event are not part of it. */
  lemma EventAtPrefix(b: seq<U8>, tail: seq<U8>, ssidLen: SsidLen, beeps: BeepCount)
    requires |b| == FIXED_BYTES + ssidLen + 1 + UUID_LEN * beeps
    ensures EventAt(b + tail, ssidLen, beeps) == EventAt(b, ssidLen, beeps)
  {
    hide I64Value, U16Value, Chunks, WithTail;
    forall i, j | 0 <= i <= j <= |b|
      ensures (b + tail)[i..j] == b[i..j]
    {
    }
    assert (b + tail)[..16] == b[..16];
  }

  lemma EventRoundTrip(e: Event, tail: seq<U8>)
    requires EventFieldsValid(e)
    ensures var r := ParseEvent(EncodeEvent(e) + tail);
      r.Ok? && EventEqual(e, r.value.0) && EventFieldsValid(r.value.0) && r.value.1 == tail
  {
    hide EncodeEvent, EventAt, EventEqual, EventFieldsValid;
    var b, n := EncodeEvent(e) + tail, |EncodeEvent(e)|;
    EventReadsBack(e);
    EventAtPrefix(EncodeEvent(e), tail, e.ssidLen, e.beepAnchorCount);
    assert b[n..] == tail;
    ValidityIsOfTheValue(e, EventAt(EncodeEvent(e), e.ssidLen, e.beepAnchorCount));
  }

  /** Any proper start of an event, and it is the missing bytes that are reported. */
  lemma EventCutShort(e: Event, k: nat)
    requires k < |EncodeEvent(e)|
    ensures ParseEvent(EncodeEvent(e)[..k]) == Err(Truncated)
  {
    hide EncodeEvent, EventAt;
    EventReadsBack(e);
  }

  ghost predicate AllValid(s: seq<Event>) {
    forall i :: 0 <= i < |s| ==> EventFieldsValid(s[i])
  }

  ghost predicate AllEqual(s: seq<Event>, t: seq<Event>) {
    |s| == |t| && forall i :: 0 <= i < |s| ==> EventEqual(s[i], t[i])
  }

  lemma {:induction false} EventsRoundTrip(s: seq<Event>, tail: seq<U8>)
    requires AllValid(s)
    ensures var r := ParseEvents(EncodeEvents(s) + tail, |s|);
      r.Ok? && AllEqual(s, r.value) && AllValid(r.value)
    decreases |s|
  {
    hide EncodeEvent, ParseEvent, EventEqual, EventFieldsValid, AllEqual;
    if s == [] {
      assert AllEqual([], []) by { EmptyAllEqual(); }
    } else {
      var rest := EncodeEvents(s[1..]) + tail;
      EventRoundTrip(s[0], rest);
      EventsRoundTrip(s[1..], tail);
      assert EncodeEvents(s) + tail == EncodeEvent(s[0]) + rest;
      var r := ParseEvent(EncodeEvents(s) + tail).value.0;
      AllEqualCons(s, r, ParseEvents(rest, |s| - 1).value);
    }
  }

  lemma EmptyAllEqual()
    ensures AllEqual([], [])
  {
  }

  lemma AllEqualCons(s: seq<Event>, e: Event, es: seq<Event>)
    requires s != [] && EventEqual(s[0], e) && AllEqual(s[1..], es)
    requires EventFieldsValid(e) && AllValid(es)
    ensures AllEqual(s, [e] + es) && AllValid([e] + es)
  {
    hide EventEqual, EventFieldsValid;
    forall i | 0 <= i < |s|
      ensures EventEqual(s[i], ([e] + es)[i])
    {
      assert i > 0 ==> s[i] == s[1..][i - 1];
    }
  }

  lemma {:induction false} EventsCutShort(s: seq<Event>, k: nat)
    requires AllValid(s) && k < |EncodeEvents(s)|
    ensures ParseEvents(EncodeEvents(s)[..k], |s|) == Err(Truncated)
    decreases |s|
  {
    hide EncodeEvent, ParseEvent, EventEqual, EventFieldsValid;
    var first := EncodeEvent(s[0]);
    if k < |first| {
      EventCutShort(s[0], k);
      assert EncodeEvents(s)[..k] == first[..k];
    } else {
      var rest := EncodeEvents(s[1..])[..k - |first|];
      EventRoundTrip(s[0], rest);
      EventsCutShort(s[1..], k - |first|);
      assert EncodeEvents(s)[..k] == first + rest;
    }
  }

  lemma HeaderLayout(s: seq<Event>, tail: seq<U8>)
    requires |s| <= U16_MAX
    ensures var b := Encode(s) + tail;
      && |Encode(s)| == 3 + |EncodeEvents(s)|
      && b[0] == FORMAT_VERSION && U16Value(b[1..3]) == |s| && b[3..] == EncodeEvents(s) + tail
  {
    hide LeBytes, U16Value;
    U16RoundTrip(|s|);
    var b := Encode(s) + tail;
    assert b[1..3] == LeBytes(|s|, 2);
  }

  /** Parsing undoes serialising, whatever follows the blob. */
  lemma BlobRoundTrip(s: seq<Event>, tail: seq<U8>)
    requires |s| <= MAX_EVENTS && AllValid(s)
    ensures var r := ParseBlob(Encode(s) + tail);
      r.Ok? && AllEqual(s, r.value)
  {
    hide Encode, U16Value, ParseEvents, EncodeEvents, EventEqual, EventFieldsValid;
    HeaderLayout(s, tail);
    EventsRoundTrip(s, tail);
  }

  /** Every strict prefix of a serialised schedule is rejected as truncated, never as a shorter schedule. */
  lemma PrefixIsTruncated(s: seq<Event>, k: nat)
    requires |s| <= MAX_EVENTS && AllValid(s) && k < |Encode(s)|
    ensures ParseBlob(Encode(s)[..k]) == Err(Truncated)
  {
    hide Encode, U16Value, ParseEvents, EncodeEvents, EventFieldsValid;
    HeaderLayout(s, []);
    var b, cut := Encode(s) + [], Encode(s)[..k];
    assert b == Encode(s);
    if k >= 3 {
      EventsCutShort(s, k - 3);
      assert cut[1..3] == b[1..3];
      assert cut[3..] == EncodeEvents(s)[..k - 3];
    }
  }

  /** What a parse accepts is within capacity, valid, and serialises to a blob that parses the same. */
  lemma {:induction false} ParsedEventsAreValid(b: seq<U8>, count: nat)
    requires ParseEvents(b, count).Ok?
    ensures |ParseEvents(b, count).value| == count && AllValid(ParseEvents(b, count).value)
    decreases count
  {
    hide EventFieldsValid, EventAt;
    if count > 0 {
      ParsedEventsAreValid(ParseEvent(b).value.1, count - 1);
    }
  }

  lemma AcceptedBlobsAreValid(b: seq<U8>)
    requires ParseBlob(b).Ok?
    ensures |ParseBlob(b).value| <= MAX_EVENTS && AllValid(ParseBlob(b).value)
    ensures var again := ParseBlob(Encode(ParseBlob(b).value)); again.Ok? && AllEqual(ParseBlob(b).value, again.value)
  {
    hide EventFieldsValid, ParseEvents, Encode;
    ParsedEventsAreValid(b[3..], U16Value(b[1..3]));
    BlobRoundTrip(ParseBlob(b).value, []);
    assert Encode(ParseBlob(b).value) + [] == Encode(ParseBlob(b).value);
  }

  // ---------------------------------------------------------------------------
  // The cursor
  // ---------------------------------------------------------------------------

  /** A reader of untrusted bytes: a read past the end sets a sticky flag and yields zeros. */
  class Cursor {
    const buf: seq<U8>
    var pos: nat
    var overrun: bool

    ghost predicate Valid()
      reads this
    {
      pos <= |buf|
    }

    constructor (b: seq<U8>)
      ensures Valid() && buf == b && pos == 0 && !overrun
    {
      buf, pos, overrun := b, 0, false;
    }

    method Take(n: nat) returns (ok: bool, bytes: seq<U8>)
      requires Valid()
      modifies this
      ensures Valid()
      ensures overrun == (old(overrun) || old(pos) + n > |buf|)
      ensures ok == !overrun
      ensures !overrun ==> pos == old(pos) + n && bytes == buf[old(pos)..pos]
      ensures |bytes| == n
    {
      if overrun || |buf| - pos < n {
        overrun := true;
        return false, seq(n, _ => 0);
      }
      bytes := buf[pos..pos + n];
      pos := pos + n;
      return true, bytes;
    }

    method TakeU8() returns (v: U8)
      requires Valid()
      modifies this
      ensures Valid()
      ensures overrun == (old(overrun) || old(pos) + 1 > |buf|)
      ensures !overrun ==> pos == old(pos) + 1 && v == buf[old(pos)]
      ensures overrun ==> v == 0
    {
      if overrun || |buf| - pos < 1 {
        overrun := true;
        return 0;
      }
      v := buf[pos];
      pos := pos + 1;
    }

    method TakeU16() returns (v: U16)
      requires Valid()
      modifies this
      ensures Valid()
      ensures overrun == (old(overrun) || old(pos) + 2 > |buf|)
      ensures !overrun ==> pos == old(pos) + 2 && v == U16Value(buf[old(pos)..pos])
    {
      var ok, b := Take(2);
      var low: int, high: int := b[0], b[1];
      assert b[1..][1..] == [];
      assert LeValue(b[1..]) == high;
      assert LeValue(b) == low + 256 * high;
      return low + 256 * high;
    }

    /** Eight bytes, highest first into a 64-bit accumulator, then reinterpreted as signed. */
    method TakeI64() returns (v: I64)
      requires Valid()
      modifies this
      ensures Valid()
      ensures overrun == (old(overrun) || old(pos) + 8 > |buf|)
      ensures !overrun ==> pos == old(pos) + 8 && v == I64Value(buf[old(pos)..pos])
    {
      hide LeValue, Pow256, I64Value;
      var ok, b := Take(8);
      var u: int := Assemble(b);
      EightBytesFit(b);
      SignedValue(b);
      return if u >= 0x8000_0000_0000_0000 then u - 0x1_0000_0000_0000_0000 else u;
    }
  }

  lemma SignedValue(b: seq<U8>)
    requires |b| == 8
    ensures I64Value(b) == if LeValue(b) >= 0x8000_0000_0000_0000 then LeValue(b) - 0x1_0000_0000_0000_0000 else LeValue(b)
  {
    hide LeValue, Pow256;
  }

  /** The accumulator loop: the highest byte first. */
  method Assemble(b: seq<U8>) returns (u: nat)
    ensures u == LeValue(b)
  {
    hide LeValue;
    u := 0;
    var i := |b|;
    NoBytes(b);
    while i > 0
      invariant 0 <= i <= |b|
      invariant u == LeValue(b[i..])
    {
      LeValueStep(b, i - 1);
      u := 256 * u + b[i - 1];
      i := i - 1;
    }
    assert b[0..] == b;
  }

  /** The fixed part of one event: no check until the anchor id, whose read fails if any before it did. */
  method TakeFixedFields(c: Cursor) returns (ok: bool, e: Event)
    requires c.Valid() && !c.overrun
    modifies c
    ensures c.Valid()
    ensures ok == !c.overrun == (old(c.pos) + FIXED_BYTES - 1 <= |c.buf|)
    ensures ok ==> c.pos == old(c.pos) + FIXED_BYTES - 1
    ensures old(c.pos) + FIXED_BYTES <= |c.buf| ==> e == FixedFieldsAt(c.buf[old(c.pos)..])
  {
    hide U16Value, I64Value;
    ghost var start := c.pos;
    var id, anchor;
    e := EmptyEvent();
    ok, id := c.Take(UUID_LEN);
    if !ok {
      return;
    }
    var referenceDate := c.TakeI64();
    var startTime := c.TakeU16();
    var endTime := c.TakeU16();
    var recurrence, dayOfWeek, dayOfMonth, criteria, profile, anchorProfile, negate := TakeRules(c);
    var grace := c.TakeU16();
    var hasAnchor := c.TakeU8();
    ok, anchor := c.Take(UUID_LEN);
    e := Event(id, referenceDate, startTime, endTime, recurrence, dayOfWeek, dayOfMonth, criteria, profile,
               anchorProfile, negate != 0, grace, hasAnchor != 0, anchor, 0, EmptySsid(), 0, EmptyBeeps());
    ghost var b := c.buf[start..];
    if |b| >= FIXED_BYTES {
      assert c.buf[start + 16..start + 24] == b[16..24];
      assert c.buf[start + 24..start + 26] == b[24..26];
      assert c.buf[start + 26..start + 28] == b[26..28];
      assert c.buf[start + 28..start + 35] == b[28..35];
      assert forall k :: 28 <= k < 35 ==> b[28..35][k - 28] == b[k];
      assert c.buf[start + 35..start + 37] == b[35..37];
      assert c.buf[start + 38..start + 54] == b[38..54];
    }
  }

  method TakeRules(c: Cursor)
    returns (recurrence: U8, dayOfWeek: U8, dayOfMonth: U8, criteria: U8, profile: U8, anchorProfile: U8, negate: U8)
    requires c.Valid()
    modifies c
    ensures c.Valid()
    ensures c.overrun == (old(c.overrun) || old(c.pos) + 7 > |c.buf|)
    ensures !c.overrun ==>
      && c.pos == old(c.pos) + 7
      && [recurrence, dayOfWeek, dayOfMonth, criteria, profile, anchorProfile, negate] == c.buf[old(c.pos)..c.pos]
  {
    recurrence := c.TakeU8();
    dayOfWeek := c.TakeU8();
    dayOfMonth := c.TakeU8();
    criteria := c.TakeU8();
    profile := c.TakeU8();
    anchorProfile := c.TakeU8();
    negate := c.TakeU8();
  }

  /** The beep anchors one by one. */
  method TakeUuids(c: Cursor, n: nat) returns (ok: bool, us: seq<Uuid>)
    requires c.Valid() && !c.overrun
    modifies c
    ensures c.Valid()
    ensures ok == !c.overrun == (old(c.pos) + UUID_LEN * n <= |c.buf|)
    ensures ok ==> c.pos == old(c.pos) + UUID_LEN * n && us == Chunks(c.buf[old(c.pos)..c.pos], n)
  {
    us := [];
    ghost var start := c.pos;
    var i := 0;
    while i < n
      invariant 0 <= i <= n
      invariant c.Valid() && !c.overrun && c.pos == start + UUID_LEN * i
      invariant us == Chunks(c.buf[start..c.pos], i)
    {
      var u;
      ghost var was := c.pos;
      ok, u := c.Take(UUID_LEN);
      if !ok {
        return;
      }
      ChunksAppend(c.buf[start..was], u, i);
      assert c.buf[start..c.pos] == c.buf[start..was] + u;
      us := us + [u];
      i := i + 1;
    }
    return true, us;
  }

  lemma {:induction false} ChunksAppend(b: seq<U8>, u: Uuid, n: nat)
    requires |b| == UUID_LEN * n
    ensures Chunks(b + u, n + 1) == Chunks(b, n) + [u]
  {
    if n == 0 {
      assert b + u == u;
      assert u[..UUID_LEN] == u && Chunks(u[UUID_LEN..], 0) == [];
    } else {
      ChunksAppend(b[UUID_LEN..], u, n - 1);
      assert (b + u)[..UUID_LEN] == b[..UUID_LEN];
      assert (b + u)[UUID_LEN..] == b[UUID_LEN..] + u;
    }
  }

  /** What the bytes from position `p` say about the variable tail of an event. */
  ghost predicate TailFits(buf: seq<U8>, p: nat) {
    && p < |buf| && buf[p] <= MAX_SSID_LEN
    && p + 1 + buf[p] < |buf| && buf[p + 1 + buf[p]] <= MAX_BEEP_ANCHORS
    && p + 2 + buf[p] + UUID_LEN * buf[p + 1 + buf[p]] <= |buf|
  }

  ghost predicate TailIsBad(buf: seq<U8>, p: nat) {
    && p < |buf|
    && (buf[p] > MAX_SSID_LEN || (p + 1 + buf[p] < |buf| && buf[p + 1 + buf[p]] > MAX_BEEP_ANCHORS))
  }

  /** The SSID and the beep anchors, each behind its count. */
  method TakeTail(c: Cursor) returns (r: Parsed<(seq<U8>, seq<Uuid>)>)
    requires c.Valid() && !c.overrun
    modifies c
    ensures c.Valid()
    ensures r.Ok? <==> TailFits(c.buf, old(c.pos))
    ensures r == Err(BadField) <==> TailIsBad(c.buf, old(c.pos))
    ensures r.Err? ==> r.error == BadField || r.error == Truncated
    ensures r.Ok? ==>
      var p, n := old(c.pos), c.buf[old(c.pos)];
      && !c.overrun
      && c.pos == p + 2 + n + UUID_LEN * c.buf[p + 1 + n]
      && r.value.0 == c.buf[p + 1..p + 1 + n]
      && r.value.1 == Chunks(c.buf[p + 2 + n..c.pos], c.buf[p + 1 + n])
  {
    var ok;
    var ssidLen := c.TakeU8();
    if ssidLen > MAX_SSID_LEN {
      return Err(BadField);
    }
    var ssid := [];
    if ssidLen > 0 {
      ok, ssid := c.Take(ssidLen);
      if !ok {
        return Err(Truncated);
      }
    }
    var beepCount := c.TakeU8();
    if beepCount > MAX_BEEP_ANCHORS {
      return Err(BadField);
    }
    var beeps := [];
    if beepCount > 0 {
      ok, beeps := TakeUuids(c, beepCount);
      if !ok {
        return Err(Truncated);
      }
    }
    if c.overrun {
      return Err(Truncated);
    }
    return Ok((ssid, beeps));
  }

  lemma SliceOfSuffix(buf: seq<U8>, start: nat, i: nat, j: nat)
    requires start + i <= start + j <= |buf|
    ensures buf[start..][i..j] == buf[start + i..start + j]
  {
  }

  /** The tail read at a position of the whole blob is the tail of the event's own bytes. */
  lemma TailOfSuffix(buf: seq<U8>, start: nat)
    requires start + FIXED_BYTES - 1 <= |buf|
    ensures TailFits(buf, start + FIXED_BYTES - 1) <==> TailFits(buf[start..], FIXED_BYTES - 1)
    ensures TailIsBad(buf, start + FIXED_BYTES - 1) <==> TailIsBad(buf[start..], FIXED_BYTES - 1)
    ensures TailFits(buf, start + FIXED_BYTES - 1) ==>
      var b, p := buf[start..], start + FIXED_BYTES - 1;
      b[FIXED_BYTES - 1] == buf[p] && b[FIXED_BYTES + buf[p]] == buf[p + 1 + buf[p]]
  {
  }

  /** One iteration of the parse loop. */
  method TakeEvent(c: Cursor) returns (r: Parsed<Event>)
    requires c.Valid() && !c.overrun
    modifies c
    ensures c.Valid()
    ensures match ParseEvent(c.buf[old(c.pos)..])
      case Ok((e, rest)) => r == Ok(e) && !c.overrun && rest == c.buf[c.pos..]
      case Err(x) => r == Err(x)
  {
    hide FixedFieldsAt, EventFieldsValid, Chunks, WithTail;
    ghost var start := c.pos;
    ghost var b := c.buf[start..];
    var ok, e := TakeFixedFields(c);
    if !ok {
      return Err(Truncated);
    }
    ghost var p := c.pos;
    var t := TakeTail(c);
    TailOfSuffix(c.buf, start);
    if t.Err? {
      return Err(t.error);
    }
    ghost var n, m := c.buf[p], c.buf[p + 1 + c.buf[p]];
    SliceOfSuffix(c.buf, start, FIXED_BYTES, FIXED_BYTES + n);
    SliceOfSuffix(c.buf, start, FIXED_BYTES + n + 1, FIXED_BYTES + n + 1 + UUID_LEN * m);
    SliceOfSuffix(c.buf, start, FIXED_BYTES + n + 1 + UUID_LEN * m, |b|);
    e := WithTail(e, t.value.0, t.value.1);
    if !EventFieldsValid(e) {
      return Err(BadField);
    }
    return Ok(e);
  }

  /** impulse_blob_parse: the result, and on success the whole schedule and its checksum. */
  method Parse(buf: seq<U8>, out: Schedule) returns (r: Option<BlobError>)
    requires out.Valid()
    modifies out, out.events
    ensures out.Valid()
    ensures match ParseBlob(buf)
      case Ok(es) => r == None && out.Contents() == es && out.crc32 == Crc32.Crc32(buf)
      case Err(x) => r == Some(x)
  {
    hide ParseEvent, Crc32.Crc32;
    var c := new Cursor(buf);
    if |buf| < 3 {
      return Some(Truncated);
    }
    var version := c.TakeU8();
    if version != FORMAT_VERSION {
      return Some(BadVersion);
    }
    var count := c.TakeU16();
    if count > MAX_EVENTS {
      return Some(TooMany);
    }
    out.count := 0;
    PrependNothing(ParseEvents(buf[3..], count));
    var i := 0;
    while i < count
      invariant 0 <= i <= count
      invariant out.Valid() && out.count == 0
      invariant c.Valid() && !c.overrun
      invariant ParseBlob(buf) == Prepend(out.events[..i], ParseEvents(buf[c.pos..], count - i))
    {
      ghost var before, rest := out.events[..i], buf[c.pos..];
      var e := TakeEvent(c);
      if e.Err? {
        return Some(e.error);
      }
      out.events[i] := e.value;
      i := i + 1;
      assert out.events[..i] == before + [e.value];
      PrependSplits(before, e.value, ParseEvents(buf[c.pos..], count - i));
    }
    out.count := count;
    var crc := Crc32.Crc32Loop(buf);
    out.crc32 := crc;
    assert out.events[..i] + [] == out.events[..i];
    return None;
  }

  function Prepend(front: seq<Event>, r: Parsed<seq<Event>>): Parsed<seq<Event>> {
    match r
    case Ok(es) => Ok(front + es)
    case Err(x) => Err(x)
  }

  lemma PrependNothing(r: Parsed<seq<Event>>)
    ensures Prepend([], r) == r
  {
    if r.Ok? {
      assert [] + r.value == r.value;
    }
  }

  lemma PrependSplits(front: seq<Event>, e: Event, r: Parsed<seq<Event>>)
    ensures Prepend(front, Prepend([e], r)) == Prepend(front + [e], r)
  {
    if r.Ok? {
      assert front + ([e] + r.value) == front + [e] + r.value;
    }
  }

  // ---------------------------------------------------------------------------
  // The writer
  // ---------------------------------------------------------------------------

  /** A bounded writer: once something does not fit, nothing more is written. */
  class Writer {
    const buf: array<U8>
    var pos: nat
    var full: bool
    /** Everything the writer was asked to write. */
    ghost var asked: seq<U8>

    ghost predicate Valid()
      reads this, buf
    {
      && pos <= buf.Length
      && (!full ==> buf[..pos] == asked)
      && (full ==> |asked| > buf.Length)
    }

    constructor (b: array<U8>)
      ensures Valid() && buf == b && asked == [] && !full && pos == 0
    {
      buf, pos, full, asked := b, 0, false, [];
    }

    method Bytes(src: seq<U8>)
      requires Valid()
      modifies this, buf
      ensures Valid() && asked == old(asked) + src
    {
      asked := asked + src;
      if full || buf.Length - pos < |src| {
        full := true;
        return;
      }
      ghost var was := buf[..pos];
      forall i | 0 <= i < |src| {
        buf[pos + i] := src[i];
      }
      pos := pos + |src|;
      assert buf[..pos] == was + src;
    }

    method I64(v: I64)
      requires Valid()
      modifies this, buf
      ensures Valid() && asked == old(asked) + I64Bytes(v)
    {
      var u: nat := if v < 0 then v + 0x1_0000_0000_0000_0000 else v;
      var b := LeBytesLoop(u, 8);
      Bytes(b);
    }
  }

  /** Lowest byte first. */
  method LeBytesLoop(v: nat, n: nat) returns (b: seq<U8>)
    ensures b == LeBytes(v, n)
  {
    var u := v;
    b := [];
    var i := 0;
    while i < n
      invariant 0 <= i <= n
      invariant LeBytes(v, n) == b + LeBytes(u, n - i)
    {
      assert LeBytes(u, n - i) == [u % 256] + LeBytes(u / 256, n - i - 1);
      assert b + ([u % 256] + LeBytes(u / 256, n - i - 1)) == b + [u % 256] + LeBytes(u / 256, n - i - 1);
      b := b + [u % 256];
      u := u / 256;
      i := i + 1;
    }
  }

  /** The fields up to the SSID length, in wire order. */
  method WriteFixedPart(w: Writer, e: Event)
    requires w.Valid()
    modifies w, w.buf
    ensures w.Valid() && w.asked == old(w.asked) + FixedPart(e)
  {
    hide LeBytes, I64Bytes, Flag;
    ghost var was := w.asked;
    WriteTimes(w, e);
    WriteRules(w, e);
    WriteAnchor(w, e);
    ghost var times := e.id + I64Bytes(e.referenceDate) + LeBytes(e.startTime, 2) + LeBytes(e.endTime, 2);
    ghost var rules := [e.recurrence, e.dayOfWeek, e.dayOfMonth, e.criteria, e.profile, e.anchorProfile, Flag(e.negate)];
    ghost var anchor := LeBytes(e.donningGraceS, 2) + [Flag(e.hasAnchorId)] + e.anchorId + [e.ssidLen];
    assert w.asked == was + times + rules + anchor;
    assert FixedPart(e) == times + rules + anchor;
  }

  method WriteTimes(w: Writer, e: Event)
    requires w.Valid()
    modifies w, w.buf
    ensures w.Valid()
    ensures w.asked == old(w.asked)
         + (e.id + I64Bytes(e.referenceDate) + LeBytes(e.startTime, 2) + LeBytes(e.endTime, 2))
  {
    hide LeBytes, I64Bytes;
    w.Bytes(e.id);
    w.I64(e.referenceDate);
    w.Bytes(LeBytes(e.startTime, 2));
    w.Bytes(LeBytes(e.endTime, 2));
  }

  method WriteAnchor(w: Writer, e: Event)
    requires w.Valid()
    modifies w, w.buf
    ensures w.Valid()
    ensures w.asked == old(w.asked)
         + (LeBytes(e.donningGraceS, 2) + [Flag(e.hasAnchorId)] + e.anchorId + [e.ssidLen])
  {
    hide LeBytes, Flag;
    w.Bytes(LeBytes(e.donningGraceS, 2));
    w.Bytes([Flag(e.hasAnchorId)]);
    w.Bytes(e.anchorId);
    w.Bytes([e.ssidLen]);
  }

  method WriteRules(w: Writer, e: Event)
    requires w.Valid()
    modifies w, w.buf
    ensures w.Valid()
    ensures w.asked == old(w.asked)
         + [e.recurrence, e.dayOfWeek, e.dayOfMonth, e.criteria, e.profile, e.anchorProfile, Flag(e.negate)]
  {
    hide Flag;
    w.Bytes([e.recurrence]);
    w.Bytes([e.dayOfWeek]);
    w.Bytes([e.dayOfMonth]);
    w.Bytes([e.criteria]);
    w.Bytes([e.profile]);
    w.Bytes([e.anchorProfile]);
    w.Bytes([Flag(e.negate)]);
  }

  method WriteEvent(w: Writer, e: Event)
    requires w.Valid()
    modifies w, w.buf
    ensures w.Valid() && w.asked == old(w.asked) + EncodeEvent(e)
  {
    hide FixedPart;
    ghost var was := w.asked;
    WriteFixedPart(w, e);
    if e.ssidLen > 0 {
      w.Bytes(e.wifiSsid[..e.ssidLen]);
    }
    w.Bytes([e.beepAnchorCount]);
    ghost var head := w.asked;
    assert head == was + (FixedPart(e) + Ssid(e) + [e.beepAnchorCount]);
    WriteBeeps(w, e);
    assert w.asked == was + EncodeEvent(e);
  }

  method WriteBeeps(w: Writer, e: Event)
    requires w.Valid()
    modifies w, w.buf
    ensures w.Valid() && w.asked == old(w.asked) + Concat(Beeps(e))
  {
    ghost var head := w.asked;
    var b := 0;
    while b < e.beepAnchorCount
      invariant 0 <= b <= e.beepAnchorCount
      invariant w.Valid()
      invariant w.asked + Concat(Beeps(e)[b..]) == head + Concat(Beeps(e))
    {
      assert Beeps(e)[b..][1..] == Beeps(e)[b + 1..];
      w.Bytes(e.beepAnchors[b]);
      b := b + 1;
    }
  }

  /** impulse_blob_serialize: the encoding, or 0 exactly when it does not fit. */
  method Serialize(s: seq<Event>, buf: array<U8>) returns (n: nat)
    requires |s| <= MAX_EVENTS
    modifies buf
    ensures n == 0 <==> |Encode(s)| > buf.Length
    ensures n > 0 ==> n <= buf.Length && buf[..n] == Encode(s)
  {
    hide EncodeEvent;
    var w := new Writer(buf);
    w.Bytes([FORMAT_VERSION]);
    w.Bytes(LeBytes(|s|, 2));
    var i := 0;
    while i < |s|
      invariant 0 <= i <= |s|
      invariant w.Valid() && w.buf == buf && fresh(w)
      invariant w.asked + EncodeEvents(s[i..]) == Encode(s)
    {
      assert s[i..][1..] == s[i + 1..];
      WriteEvent(w, s[i]);
      i := i + 1;
    }
    assert w.asked == Encode(s);
    return if w.full then 0 else w.pos;
  }
}
