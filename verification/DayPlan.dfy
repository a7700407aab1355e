/**
 Resolving one day: which events apply, in what order, and which one is active at a minute.

 A plan holds references into the schedule; here they are indices into it.
 */
module DayPlan {
  import opened Machine
  import opened CivilDate
  import opened Events
  import opened NextStart
  import opened InsertionSort

  const MAX_EVENTS_PER_DAY := 32

  /** The day being resolved: a schedule, a local date and the timezone in force. */
  datatype Day = Day(events: seq<Event>, date: Date, tz: int) {
    predicate Occurs(i: nat)
      requires i < |events|
    {
      OccursOn(events[i], date, tz)
    }
  }

  // ---------------------------------------------------------------------------
  // Steps 1 to 5 as functions
  // ---------------------------------------------------------------------------

  predicate Indexes(plan: seq<nat>, n: nat) {
    forall j :: 0 <= j < |plan| ==> plan[j] < n
  }

  /** Position in a plan of the entry with this id, or |plan|. */
  function Slot(s: seq<Event>, plan: seq<nat>, id: Uuid): (j: nat)
    requires Indexes(plan, |s|)
    ensures j <= |plan|
    ensures j < |plan| ==> s[plan[j]].id == id
    ensures forall k :: 0 <= k < j ==> s[plan[k]].id != id
  {
    if plan == [] then 0
    else if s[plan[0]].id == id then 0
    else 1 + Slot(s, plan[1..], id)
  }

  /** One step of the scan when the cap is not in the way. */
  function Place(s: seq<Event>, plan: seq<nat>, i: nat): (r: seq<nat>)
    requires i < |s|
    requires Indexes(plan, i)
    ensures Indexes(r, i + 1)
  {
    var j := Slot(s, plan, s[i].id);
    if j == |plan| then plan + [i]
    else if s[i].recurrence == RECUR_ONCE then plan[j := i]
    else plan
  }

  /** The plan after scanning the first `n` events, before the cap bites. */
  function Merge(day: Day, n: nat): (plan: seq<nat>)
    requires n <= |day.events|
    ensures Indexes(plan, n)
  {
    if n == 0 then []
    else if day.Occurs(n - 1) then Place(day.events, Merge(day, n - 1), n - 1)
    else Merge(day, n - 1)
  }

  /** The cap stops the whole scan: event `i` occurs, is new to a full plan, and nothing after it is looked at. */
  predicate CapStopsAt(day: Day, i: nat)
    requires i < |day.events|
  {
    && day.Occurs(i)
    && |Merge(day, i)| >= MAX_EVENTS_PER_DAY
    && Slot(day.events, Merge(day, i), day.events[i].id) == |Merge(day, i)|
  }

  /** How many events the scan looks at. */
  function Scanned(day: Day, from: nat): (n: nat)
    requires from <= |day.events|
    ensures from <= n <= |day.events|
    ensures n < |day.events| ==> CapStopsAt(day, n)
    ensures forall i :: from <= i < n ==> !CapStopsAt(day, i)
    decreases |day.events| - from
  {
    if from == |day.events| || CapStopsAt(day, from) then from else Scanned(day, from + 1)
  }

  function DropNegated(s: seq<Event>, plan: seq<nat>): (r: seq<nat>)
    requires Indexes(plan, |s|)
    ensures |r| <= |plan|
    ensures Indexes(r, |s|)
  {
    if plan == [] then []
    else
      var rest := DropNegated(s, plan[..|plan| - 1]);
      var last := plan[|plan| - 1];
      if s[last].negate then rest else rest + [last]
  }

  function StartOf(s: seq<Event>): nat -> int {
    (i: nat) => if i < |s| then s[i].startTime else 0
  }

  function DayPlanOf(day: Day): (plan: seq<nat>)
  {
    Sort(DropNegated(day.events, Merge(day, Scanned(day, 0))), StartOf(day.events))
  }

  predicate InWindow(e: Event, minute: int) {
    e.startTime <= minute < e.endTime
  }

  /** impulse_active_event: the first planned event whose half-open window holds the minute. */
  function ActiveAt(s: seq<Event>, plan: seq<nat>, minute: int): Option<nat>
    requires Indexes(plan, |s|)
  {
    if plan == [] then None
    else if InWindow(s[plan[0]], minute) then Some(plan[0])
    else ActiveAt(s, plan[1..], minute)
  }

  // ---------------------------------------------------------------------------
  // The same steps, in place
  // ---------------------------------------------------------------------------

  class Plan {
    var count: nat
    const events: array<nat>

    ghost predicate Valid()
      reads this, events
    {
      events.Length == MAX_EVENTS_PER_DAY && count <= events.Length
    }

    ghost function Contents(): seq<nat>
      requires Valid()
      reads this, events
    {
      events[..count]
    }

    constructor ()
      ensures Valid() && Contents() == []
      ensures fresh(events)
    {
      count := 0;
      events := new nat[MAX_EVENTS_PER_DAY](_ => 0);
    }

    method FindSlot(s: seq<Event>, id: Uuid) returns (j: nat)
      requires Valid()
      requires Indexes(Contents(), |s|)
      ensures j == Slot(s, Contents(), id)
    {
      j := 0;
      while j < count
        invariant j <= count
        invariant Slot(s, Contents(), id) == j + Slot(s, Contents()[j..], id)
      {
        if s[events[j]].id == id {
          return;
        }
        j := j + 1;
      }
    }

    /** The merge pass: specific events override recurring ones with the same id. */
    method Scan(day: Day)
      requires Valid() && count == 0
      modifies this, events
      ensures Valid()
      ensures Contents() == Merge(day, Scanned(day, 0))
    {
      hide OccursOn, Slot;
      var i := 0;
      while i < |day.events|
        invariant 0 <= i <= |day.events|
        invariant Valid()
        invariant Contents() == Merge(day, i)
        invariant Scanned(day, i) == Scanned(day, 0)
      {
        if day.Occurs(i) {
          ghost var before := Contents();
          var existing := FindSlot(day.events, day.events[i].id);
          if existing < count {
            if day.events[i].recurrence == RECUR_ONCE {
              events[existing] := i;
              assert Contents() == before[existing := i];
            }
          } else if count >= MAX_EVENTS_PER_DAY {
            assert CapStopsAt(day, i);
            break;
          } else {
            events[count] := i;
            count := count + 1;
            assert Contents() == before + [i];
          }
        }
        i := i + 1;
      }
    }

    /** The compaction pass. */
    method Compact(s: seq<Event>)
      requires Valid()
      requires Indexes(Contents(), |s|)
      modifies this, events
      ensures Valid()
      ensures Contents() == DropNegated(s, old(Contents()))
    {
      ghost var was := Contents();
      var w, i := 0, 0;
      while i < count
        invariant 0 <= w <= i <= count == |was|
        invariant Valid()
        invariant forall k :: i <= k < count ==> events[k] == was[k]
        invariant events[..w] == DropNegated(s, was[..i])
      {
        assert was[..i + 1][..i] == was[..i];
        assert was[i] in was;
        ghost var kept := events[..w];
        if !s[events[i]].negate {
          events[w] := events[i];
          w := w + 1;
          assert events[..w] == kept + [was[i]];
        }
        i := i + 1;
      }
      assert was[..i] == was;
      count := w;
    }

    /** impulse_recalculate_day. */
    method Recalculate(day: Day)
      requires Valid()
      modifies this, events
      ensures Valid()
      ensures Contents() == DayPlanOf(day)
    {
      count := 0;
      Scan(day);
      Compact(day.events);
      SortInPlace(events, count, StartOf(day.events));
    }

    method Active(s: seq<Event>, minute: int) returns (e: Option<nat>)
      requires Valid()
      requires Indexes(Contents(), |s|)
      ensures e == ActiveAt(s, Contents(), minute)
    {
      var i := 0;
      while i < count
        invariant 0 <= i <= count
        invariant ActiveAt(s, Contents(), minute) == ActiveAt(s, Contents()[i..], minute)
      {
        assert Contents()[i..][1..] == Contents()[i + 1..];
        assert events[i] in Contents();
        if InWindow(s[events[i]], minute) {
          return Some(events[i]);
        }
        i := i + 1;
      }
      return None;
    }
  }

  // ---------------------------------------------------------------------------
  // What a day plan must be
  // ---------------------------------------------------------------------------

  /**
   Among the first `n` events, `w` is the one that stands for its id on this day: the last occurring
   one-time event with that id, or, when there is none, the first occurring recurring one.
   */
  ghost predicate IsWinner(day: Day, n: nat, w: nat)
    requires n <= |day.events|
  {
    && w < n && day.Occurs(w)
    && (if day.events[w].recurrence == RECUR_ONCE then
          forall i :: w < i < n && day.Occurs(i) && day.events[i].id == day.events[w].id
            ==> day.events[i].recurrence != RECUR_ONCE
        else
          && (forall i :: 0 <= i < n && day.Occurs(i) && day.events[i].id == day.events[w].id
                ==> day.events[i].recurrence != RECUR_ONCE)
          && (forall i :: 0 <= i < w && day.Occurs(i) ==> day.events[i].id != day.events[w].id))
  }

  /** Index of the first occurring event with the same id: the order in which ids come up. */
  function FirstSeen(day: Day, w: nat, from: nat): (f: nat)
    requires from <= w < |day.events|
    requires day.Occurs(w)
    ensures from <= f <= w && day.Occurs(f) && day.events[f].id == day.events[w].id
    ensures forall i :: from <= i < f && day.Occurs(i) ==> day.events[i].id != day.events[w].id
    decreases w - from
  {
    if day.Occurs(from) && day.events[from].id == day.events[w].id then from else FirstSeen(day, w, from + 1)
  }

  function Rank(day: Day): nat -> int {
    (w: nat) => if w < |day.events| && day.Occurs(w) then FirstSeen(day, w, 0) else 0
  }

  function OccurringIds(day: Day, n: nat): set<Uuid>
    requires n <= |day.events|
  {
    set i | 0 <= i < n && day.Occurs(i) :: day.events[i].id
  }

  lemma FirstSeenOfSameId(day: Day, v: nat, w: nat)
    requires v < |day.events| && w < |day.events| && day.Occurs(v) && day.Occurs(w)
    requires day.events[v].id == day.events[w].id
    ensures FirstSeen(day, v, 0) == FirstSeen(day, w, 0)
  {
  }

  lemma WinnerIsUnique(day: Day, n: nat, v: nat, w: nat)
    requires n <= |day.events| && IsWinner(day, n, v) && IsWinner(day, n, w)
    requires day.events[v].id == day.events[w].id
    ensures v == w
  {
  }

  ghost predicate HasEveryId(day: Day, n: nat, plan: seq<nat>)
    requires n <= |day.events| && Indexes(plan, n)
  {
    forall i :: 0 <= i < n && day.Occurs(i) ==> Slot(day.events, plan, day.events[i].id) < |plan|
  }

  ghost predicate AllWinners(day: Day, n: nat, plan: seq<nat>)
    requires n <= |day.events|
  {
    Indexes(plan, n) && forall j :: 0 <= j < |plan| ==> IsWinner(day, n, plan[j])
  }

  ghost predicate OnePerId(s: seq<Event>, plan: seq<nat>)
    requires Indexes(plan, |s|)
  {
    forall j, k :: 0 <= j < k < |plan| ==> s[plan[j]].id != s[plan[k]].id
  }

  ghost predicate AreWinners(day: Day, n: nat, plan: seq<nat>)
    requires n <= |day.events|
  {
    && AllWinners(day, n, plan)
    && OnePerId(day.events, plan)
    && Increasing(plan, Rank(day))
    && HasEveryId(day, n, plan)
  }

  lemma SlotMoves(s: seq<Event>, plan: seq<nat>, next: seq<nat>, id: Uuid)
    requires Indexes(plan, |s|) && Indexes(next, |s|) && |plan| <= |next|
    requires forall j :: 0 <= j < |plan| ==> s[plan[j]].id == s[next[j]].id
    ensures Slot(s, plan, id) < |plan| ==> Slot(s, next, id) < |next|
  {
  }

  lemma PlaceKeepsEveryId(day: Day, i: nat, plan: seq<nat>)
    requires i < |day.events| && day.Occurs(i) && Indexes(plan, i) && HasEveryId(day, i, plan)
    ensures HasEveryId(day, i + 1, Place(day.events, plan, i))
  {
    var next := Place(day.events, plan, i);
    forall k | 0 <= k < i + 1 && day.Occurs(k)
      ensures Slot(day.events, next, day.events[k].id) < |next|
    {
      SlotMoves(day.events, plan, next, day.events[k].id);
      if k == i && Slot(day.events, plan, day.events[k].id) == |plan| {
        assert next[|plan|] == i;
      }
    }
  }

  /** A winner loses its place only to a later one-time event with its own id. */
  lemma WinnerStays(day: Day, i: nat, w: nat)
    requires i < |day.events| && IsWinner(day, i, w)
    requires day.Occurs(i) && day.events[i].id == day.events[w].id ==> day.events[i].recurrence != RECUR_ONCE
    ensures IsWinner(day, i + 1, w)
  {
  }

  lemma PlaceAddsWinner(day: Day, i: nat, plan: seq<nat>)
    requires i < |day.events| && day.Occurs(i)
    requires Indexes(plan, i) && HasEveryId(day, i, plan)
    requires day.events[i].recurrence == RECUR_ONCE || Slot(day.events, plan, day.events[i].id) == |plan|
    ensures IsWinner(day, i + 1, i)
  {
    hide OccursOn, Slot;
    if day.events[i].recurrence != RECUR_ONCE {
      forall k | 0 <= k < i && day.Occurs(k)
        ensures day.events[k].id != day.events[i].id
      {
        assert Slot(day.events, plan, day.events[k].id) < |plan|;
      }
    }
  }

  lemma PlaceKeepsAllWinners(day: Day, i: nat, plan: seq<nat>)
    requires i < |day.events| && day.Occurs(i)
    requires AllWinners(day, i, plan) && OnePerId(day.events, plan) && HasEveryId(day, i, plan)
    ensures AllWinners(day, i + 1, Place(day.events, plan, i))
  {
    hide IsWinner, OccursOn;
    var s := day.events;
    var next, slot := Place(s, plan, i), Slot(s, plan, s[i].id);
    forall j | 0 <= j < |next|
      ensures IsWinner(day, i + 1, next[j])
    {
      if next[j] == i {
        PlaceAddsWinner(day, i, plan);
      } else {
        assert next[j] == plan[j];
        if s[i].recurrence == RECUR_ONCE && slot < |plan| {
          assert j != slot;
          assert s[plan[j]].id != s[plan[slot]].id;
        }
        WinnerStays(day, i, plan[j]);
      }
    }
  }

  lemma PlaceKeepsOnePerId(s: seq<Event>, i: nat, plan: seq<nat>)
    requires i < |s| && Indexes(plan, i) && OnePerId(s, plan)
    ensures OnePerId(s, Place(s, plan, i))
  {
  }

  lemma PlaceKeepsRanks(day: Day, i: nat, plan: seq<nat>)
    requires i < |day.events| && day.Occurs(i)
    requires Indexes(plan, i) && HasEveryId(day, i, plan) && Increasing(plan, Rank(day))
    requires forall j :: 0 <= j < |plan| ==> day.Occurs(plan[j])
    ensures Increasing(Place(day.events, plan, i), Rank(day))
  {
    hide OccursOn;
    var s, slot := day.events, Slot(day.events, plan, day.events[i].id);
    if slot < |plan| {
      FirstSeenOfSameId(day, plan[slot], i);
    } else {
      forall k | 0 <= k < i && day.Occurs(k)
        ensures s[k].id != s[i].id
      {
        assert Slot(s, plan, s[k].id) < |plan|;
      }
      assert FirstSeen(day, i, 0) == i;
      forall j | 0 <= j < |plan|
        ensures Rank(day)(plan[j]) < i
      {
      }
    }
  }

  lemma PlaceKeepsWinners(day: Day, i: nat, plan: seq<nat>)
    requires i < |day.events| && day.Occurs(i) && Indexes(plan, i)
    requires AreWinners(day, i, plan)
    ensures AreWinners(day, i + 1, Place(day.events, plan, i))
  {
    hide OccursOn, OnePerId, HasEveryId, Increasing, Rank, Place;
    PlaceKeepsAllWinners(day, i, plan);
    PlaceKeepsOnePerId(day.events, i, plan);
    WinnersOccur(day, i, plan);
    PlaceKeepsRanks(day, i, plan);
    PlaceKeepsEveryId(day, i, plan);
  }

  lemma WinnersOccur(day: Day, i: nat, plan: seq<nat>)
    requires i <= |day.events| && AllWinners(day, i, plan)
    ensures forall j :: 0 <= j < |plan| ==> day.Occurs(plan[j])
  {
    hide OccursOn;
  }

  /** The scan keeps exactly the winners, in the order their ids first came up. */
  lemma {:induction false} MergeFindsWinners(day: Day, n: nat)
    requires n <= |day.events|
    ensures AreWinners(day, n, Merge(day, n))
  {
    hide OccursOn, AreWinners, Place;
    if n == 0 {
      NoWinnersYet(day);
    } else {
      MergeFindsWinners(day, n - 1);
      var plan := Merge(day, n - 1);
      if day.Occurs(n - 1) {
        PlaceKeepsWinners(day, n - 1, plan);
      } else {
        SkipKeepsWinners(day, n - 1, plan);
      }
    }
  }

  lemma NoWinnersYet(day: Day)
    ensures AreWinners(day, 0, [])
  {
  }

  lemma SkipKeepsWinners(day: Day, i: nat, plan: seq<nat>)
    requires i < |day.events| && !day.Occurs(i)
    requires AreWinners(day, i, plan)
    ensures AreWinners(day, i + 1, plan)
  {
    hide IsWinner, OccursOn;
    forall j | 0 <= j < |plan|
      ensures IsWinner(day, i + 1, plan[j])
    {
      WinnerStays(day, i, plan[j]);
    }
  }

  lemma WinnersAreMerged(day: Day, n: nat, w: nat)
    requires n <= |day.events|
    ensures w in Merge(day, n) <==> IsWinner(day, n, w)
  {
    MergeFindsWinners(day, n);
    if IsWinner(day, n, w) {
      var plan := Merge(day, n);
      var j := Slot(day.events, plan, day.events[w].id);
      WinnerIsUnique(day, n, plan[j], w);
    }
  }

  lemma {:induction false} DropNegatedMembers(s: seq<Event>, plan: seq<nat>, w: nat)
    requires Indexes(plan, |s|)
    ensures w in DropNegated(s, plan) <==> w in plan && !s[w].negate
  {
    if plan != [] {
      DropNegatedMembers(s, plan[..|plan| - 1], w);
    }
  }

  lemma {:induction false} DropNegatedKeepsOrder(day: Day, plan: seq<nat>)
    requires Indexes(plan, |day.events|) && Increasing(plan, Rank(day))
    ensures Increasing(DropNegated(day.events, plan), Rank(day))
  {
    if plan != [] {
      var front := plan[..|plan| - 1];
      DropNegatedKeepsOrder(day, front);
      var kept := DropNegated(day.events, front);
      forall j | 0 <= j < |kept|
        ensures Rank(day)(kept[j]) < Rank(day)(plan[|plan| - 1])
      {
        assert kept[j] in kept;
        DropNegatedMembers(day.events, front, kept[j]);
      }
    }
  }

  // ---------------------------------------------------------------------------
  // The results
  // ---------------------------------------------------------------------------

  /** An event that stands for its id on this day and is not a cancellation. */
  ghost predicate Survives(day: Day, w: nat) {
    IsWinner(day, Scanned(day, 0), w) && !day.events[w].negate
  }

  /**
   The plan holds exactly the surviving winners, one per id, sorted by start time and, among equal
   start times, in the order their ids first come up in the schedule.
   */
  lemma PlanIsTheSurvivors(day: Day)
    ensures var plan := DayPlanOf(day);
      && Indexes(plan, |day.events|)
      && (forall w: nat :: w in plan <==> Survives(day, w))
      && (forall j, k :: 0 <= j < k < |plan| ==> day.events[plan[j]].id != day.events[plan[k]].id)
      && SortedByThen(plan, StartOf(day.events), Rank(day))
  {
    hide OccursOn, Merge, Sort, Survives;
    var plan := DayPlanOf(day);
    PlanIsOrdered(day);
    forall w: nat
      ensures w in plan <==> Survives(day, w)
    {
      PlanMembers(day, w);
    }
    forall j | 0 <= j < |plan|
      ensures Survives(day, plan[j]) && plan[j] < |day.events|
    {
      assert plan[j] in plan;
      SurvivorBounds(day, plan[j]);
    }
    forall j, k | 0 <= j < k < |plan|
      ensures day.events[plan[j]].id != day.events[plan[k]].id
    {
      if day.events[plan[j]].id == day.events[plan[k]].id {
        SurvivorIsUnique(day, plan[j], plan[k]);
      }
    }
  }

  lemma SurvivorBounds(day: Day, w: nat)
    requires Survives(day, w)
    ensures w < |day.events|
  {
  }

  lemma SurvivorIsUnique(day: Day, v: nat, w: nat)
    requires Survives(day, v) && Survives(day, w) && day.events[v].id == day.events[w].id
    ensures v == w
  {
    WinnerIsUnique(day, Scanned(day, 0), v, w);
  }

  lemma PlanMembers(day: Day, w: nat)
    ensures w in DayPlanOf(day) <==> Survives(day, w)
  {
    hide OccursOn, Sort, IsWinner;
    var n := Scanned(day, 0);
    var kept := DropNegated(day.events, Merge(day, n));
    SortMembers(kept, StartOf(day.events), w);
    DropNegatedMembers(day.events, Merge(day, n), w);
    WinnersAreMerged(day, n, w);
    if w in Merge(day, n) {
      var j :| 0 <= j < |Merge(day, n)| && Merge(day, n)[j] == w;
    }
  }

  lemma PlanIsOrdered(day: Day)
    ensures SortedByThen(DayPlanOf(day), StartOf(day.events), Rank(day))
  {
    hide OccursOn, Sort;
    var merged := Merge(day, Scanned(day, 0));
    MergeFindsWinners(day, Scanned(day, 0));
    DropNegatedKeepsOrder(day, merged);
    SortIsStable(DropNegated(day.events, merged), StartOf(day.events), Rank(day));
  }

  lemma {:induction false} ActiveScan(s: seq<Event>, plan: seq<nat>, minute: int)
    requires Indexes(plan, |s|)
    ensures match ActiveAt(s, plan, minute)
      case None => forall j :: 0 <= j < |plan| ==> !InWindow(s[plan[j]], minute)
      case Some(w) => exists i :: 0 <= i < |plan| && plan[i] == w && InWindow(s[w], minute)
                        && forall j :: 0 <= j < i ==> !InWindow(s[plan[j]], minute)
  {
    if plan != [] && !InWindow(s[plan[0]], minute) {
      ActiveScan(s, plan[1..], minute);
      var a := ActiveAt(s, plan[1..], minute);
      if a.Some? {
        var i :| 0 <= i < |plan[1..]| && plan[1..][i] == a.value && forall j :: 0 <= j < i ==> !InWindow(s[plan[1..][j]], minute);
        forall j | 0 <= j < i + 1
          ensures !InWindow(s[plan[j]], minute)
        {
          assert j > 0 ==> plan[j] == plan[1..][j - 1];
        }
        assert plan[i + 1] == a.value;
      } else {
        forall j | 0 <= j < |plan|
          ensures !InWindow(s[plan[j]], minute)
        {
          assert j > 0 ==> plan[j] == plan[1..][j - 1];
        }
      }
    }
  }

  /** `a` comes before every other survivor whose window holds the minute. */
  ghost predicate IsEarliestAt(day: Day, minute: int, a: nat) {
    && Survives(day, a)
    && InWindow(day.events[a], minute)
    && forall w: nat :: Survives(day, w) && InWindow(day.events[w], minute) && w != a ==>
         || day.events[a].startTime < day.events[w].startTime
         || (day.events[a].startTime == day.events[w].startTime && Rank(day)(a) < Rank(day)(w))
  }

  /** The lookup finds an event iff some survivor's window holds the minute, and then the earliest one. */
  lemma ActiveIsEarliest(day: Day, minute: int)
    ensures Indexes(DayPlanOf(day), |day.events|)
    ensures match ActiveAt(day.events, DayPlanOf(day), minute)
      case None => forall w: nat :: Survives(day, w) ==> !InWindow(day.events[w], minute)
      case Some(a) => IsEarliestAt(day, minute, a)
  {
    PlanIsTheSurvivors(day);
    var plan := DayPlanOf(day);
    ActiveScan(day.events, plan, minute);
    forall w: nat | Survives(day, w) && InWindow(day.events[w], minute)
      ensures var a := ActiveAt(day.events, plan, minute);
        a.Some? && (w != a.value ==>
          || day.events[a.value].startTime < day.events[w].startTime
          || (day.events[a.value].startTime == day.events[w].startTime && Rank(day)(a.value) < Rank(day)(w)))
    {
      assert w in plan;
      var k :| 0 <= k < |plan| && plan[k] == w;
    }
  }

  lemma {:induction false} MergedIds(day: Day, n: nat)
    requires n <= |day.events|
    ensures |Merge(day, n)| == |OccurringIds(day, n)|
  {
    hide OccursOn, OccurringIds, AreWinners;
    OccurringIdsStep(day, n);
    if n > 0 {
      MergedIds(day, n - 1);
      if day.Occurs(n - 1) {
        MergeFindsWinners(day, n - 1);
        IdIsMerged(day, n - 1, day.events[n - 1].id);
      }
    }
  }

  lemma OccurringIdsStep(day: Day, n: nat)
    requires n <= |day.events|
    ensures n == 0 ==> OccurringIds(day, n) == {}
    ensures n > 0 && day.Occurs(n - 1) ==> OccurringIds(day, n) == OccurringIds(day, n - 1) + {day.events[n - 1].id}
    ensures n > 0 && !day.Occurs(n - 1) ==> OccurringIds(day, n) == OccurringIds(day, n - 1)
  {
  }

  lemma IdIsMerged(day: Day, n: nat, id: Uuid)
    requires n <= |day.events| && AreWinners(day, n, Merge(day, n))
    ensures id in OccurringIds(day, n) <==> Slot(day.events, Merge(day, n), id) < |Merge(day, n)|
  {
    hide OccursOn;
    var plan := Merge(day, n);
    var slot := Slot(day.events, plan, id);
    if slot < |plan| {
      assert IsWinner(day, n, plan[slot]);
    }
    if id in OccurringIds(day, n) {
      var i :| 0 <= i < n && day.Occurs(i) && day.events[i].id == id;
      assert Slot(day.events, plan, day.events[i].id) < |plan|;
    }
  }

  lemma IdsOnlyGrow(day: Day, m: nat, n: nat)
    requires m <= n <= |day.events|
    ensures |OccurringIds(day, m)| <= |OccurringIds(day, n)|
  {
    var rest := OccurringIds(day, n) - OccurringIds(day, m);
    assert OccurringIds(day, m) <= OccurringIds(day, n);
    assert OccurringIds(day, n) == OccurringIds(day, m) + rest;
  }

  /** The whole schedule is looked at exactly when at most 32 distinct ids occur on the day. */
  lemma CapNeverBites(day: Day)
    ensures Scanned(day, 0) == |day.events| <==> |OccurringIds(day, |day.events|)| <= MAX_EVENTS_PER_DAY
  {
    var n := Scanned(day, 0);
    MergedIds(day, n);
    MergedIds(day, |day.events|);
    if n < |day.events| {
      MergedIds(day, n + 1);
      IdsOnlyGrow(day, n + 1, |day.events|);
    } else if |OccurringIds(day, n)| > MAX_EVENTS_PER_DAY {
      var i := CapBites(day, n);
    }
  }

  lemma {:induction false} CapBites(day: Day, n: nat) returns (i: nat)
    requires n <= |day.events| && |Merge(day, n)| > MAX_EVENTS_PER_DAY
    ensures i < n && CapStopsAt(day, i)
  {
    if |Merge(day, n - 1)| > MAX_EVENTS_PER_DAY {
      i := CapBites(day, n - 1);
    } else {
      i := n - 1;
    }
  }

  /** With one event per id and room for all, every occurring event that is no cancellation survives. */
  lemma DistinctSurvivors(day: Day, w: nat)
    requires DistinctIds(day.events)
    requires |OccurringIds(day, |day.events|)| <= MAX_EVENTS_PER_DAY
    ensures Survives(day, w) <==> w < |day.events| && day.Occurs(w) && !day.events[w].negate
  {
    hide OccursOn;
    CapNeverBites(day);
  }

  // ---------------------------------------------------------------------------
  // What the cap loses
  // ---------------------------------------------------------------------------

  /** Nothing at or after the event that stops the scan is planned, not even an override of an id already in the plan. */
  lemma PastTheCapIsLost(day: Day, w: nat)
    requires Scanned(day, 0) <= w
    ensures w !in DayPlanOf(day)
  {
    hide OccursOn;
    PlanMembers(day, w);
  }

  function NumberedId(i: U8): Uuid {
    [i] + seq(UUID_LEN - 1, _ => 0)
  }

  /**
   33 daily events, and then a one-time event for the date 1970-01-01 that overrides the first of them: an id
   twice, as only a schedule stored without the gate can have.
   */
  function CrowdedDay(): (day: Day)
    ensures |day.events| == 34 && day.date == Date(1970, 1, 1) && day.tz == 0
    ensures forall i :: 0 <= i < 33 ==> day.events[i].id == NumberedId(i) && day.events[i].recurrence == RECUR_DAILY
    ensures day.events[33] == EmptyEvent().(id := NumberedId(0), endTime := 60)
  {
    Day(seq(33, i requires 0 <= i < 33 => EmptyEvent().(id := NumberedId(i), recurrence := RECUR_DAILY, endTime := 60))
          + [EmptyEvent().(id := NumberedId(0), endTime := 60)],
        Date(1970, 1, 1), 0)
  }

  lemma NumberedIdsDiffer(i: U8, j: U8)
    requires NumberedId(i) == NumberedId(j)
    ensures i == j
  {
    assert NumberedId(i)[0] == i && NumberedId(j)[0] == j;
  }

  predicate NewIdsUpTo(day: Day, n: nat)
    requires n <= |day.events|
  {
    && (forall i :: 0 <= i < n ==> day.Occurs(i))
    && (forall i, j :: 0 <= i < j < n ==> day.events[i].id != day.events[j].id)
  }

  lemma NewIdHasNoSlot(day: Day, n: nat, plan: seq<nat>)
    requires n < |day.events| && NewIdsUpTo(day, n + 1) && Indexes(plan, n)
    ensures Slot(day.events, plan, day.events[n].id) == |plan|
  {
    hide OccursOn;
    var j := Slot(day.events, plan, day.events[n].id);
  }

  /** Occurring events with new ids are all planned until the cap. */
  lemma {:induction false} NewIdsAreAppended(day: Day, n: nat)
    requires n <= |day.events| && NewIdsUpTo(day, n)
    ensures |Merge(day, n)| == n
  {
    hide OccursOn, Slot;
    if n > 0 {
      NewIdsAreAppended(day, n - 1);
      NewIdHasNoSlot(day, n - 1, Merge(day, n - 1));
    }
  }

  lemma CrowdIsNew(n: nat)
    requires n <= 33
    ensures NewIdsUpTo(CrowdedDay(), n)
  {
    hide CrowdedDay, NumberedId;
    forall i, j | 0 <= i < j < n
      ensures CrowdedDay().events[i].id != CrowdedDay().events[j].id
    {
      if NumberedId(i) == NumberedId(j) {
        NumberedIdsDiffer(i, j);
      }
    }
  }

  /** A 33rd new id stops the scan. */
  lemma NewIdStopsAtCap(day: Day)
    requires MAX_EVENTS_PER_DAY < |day.events| && NewIdsUpTo(day, MAX_EVENTS_PER_DAY + 1)
    ensures Scanned(day, 0) <= MAX_EVENTS_PER_DAY
  {
    hide OccursOn, Slot, Merge, Scanned;
    FewerNewIds(day, MAX_EVENTS_PER_DAY);
    NewIdsAreAppended(day, MAX_EVENTS_PER_DAY);
    NewIdHasNoSlot(day, MAX_EVENTS_PER_DAY, Merge(day, MAX_EVENTS_PER_DAY));
    assert CapStopsAt(day, MAX_EVENTS_PER_DAY);
  }

  lemma FewerNewIds(day: Day, n: nat)
    requires n < |day.events| && NewIdsUpTo(day, n + 1)
    ensures NewIdsUpTo(day, n)
  {
    hide OccursOn;
  }

  lemma FirstDay()
    ensures LocalDate(0, 0) == Date(1970, 1, 1)
  {
    hide CivilFromDays, LocalDay;
    LocalDayIsFloor(0, 0);
    EpochIsDayZero();
  }

  lemma OverrideOccurs()
    ensures CrowdedDay().Occurs(33)
  {
    hide LocalDate, CrowdedDay;
    FirstDay();
  }

  /**
   A concrete loss: the one-time event is the winner of the whole schedule for an id that is already in the
   full plan, is no cancellation, and is not planned.
   */
  lemma CapLosesAnOverride()
    ensures var day := CrowdedDay();
      && IsWinner(day, |day.events|, 33) && !day.events[33].negate
      && day.events[33].id == day.events[0].id && day.events[0].id in OccurringIds(day, 32)
      && 33 !in DayPlanOf(day)
  {
    hide CrowdedDay, OccursOn, NumberedId, DayPlanOf;
    var day := CrowdedDay();
    OverrideOccurs();
    CrowdIsNew(33);
    NewIdStopsAtCap(day);
    PastTheCapIsLost(day, 33);
    assert day.Occurs(0);
  }
}
