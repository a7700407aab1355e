/**
 Insertion sort, used in place by the day plan and by the burst median.
 */
module InsertionSort {

  /** Put `x` after every element of `s` that is not greater, scanning from the right. */
  function Insert<T>(s: seq<T>, x: T, key: T -> int): (r: seq<T>)
    ensures |r| == |s| + 1
  {
    if s == [] || key(s[|s| - 1]) <= key(x) then s + [x]
    else Insert(s[..|s| - 1], x, key) + [s[|s| - 1]]
  }

  function Sort<T>(s: seq<T>, key: T -> int): (r: seq<T>)
    ensures |r| == |s|
  {
    if s == [] then [] else Insert(Sort(s[..|s| - 1], key), s[|s| - 1], key)
  }

  ghost predicate SortedBy<T>(s: seq<T>, key: T -> int) {
    forall i, j :: 0 <= i < j < |s| ==> key(s[i]) <= key(s[j])
  }

  /** Sorted by key, and by rank among equal keys. */
  ghost predicate SortedByThen<T>(s: seq<T>, key: T -> int, rank: T -> int) {
    forall i, j :: 0 <= i < j < |s| ==> key(s[i]) < key(s[j]) || (key(s[i]) == key(s[j]) && rank(s[i]) < rank(s[j]))
  }

  ghost predicate Increasing<T>(s: seq<T>, rank: T -> int) {
    forall i, j :: 0 <= i < j < |s| ==> rank(s[i]) < rank(s[j])
  }

  lemma {:induction false} InsertPermutes<T>(s: seq<T>, x: T, key: T -> int)
    ensures multiset(Insert(s, x, key)) == multiset(s) + multiset{x}
  {
    if s != [] && key(s[|s| - 1]) > key(x) {
      InsertPermutes(s[..|s| - 1], x, key);
      assert s == s[..|s| - 1] + [s[|s| - 1]];
    }
  }

  lemma {:induction false} InsertMembers<T>(s: seq<T>, x: T, key: T -> int, y: T)
    ensures y in Insert(s, x, key) <==> y == x || y in s
  {
    if s != [] && key(s[|s| - 1]) > key(x) {
      InsertMembers(s[..|s| - 1], x, key, y);
    }
  }

  lemma {:induction false} SortMembers<T>(s: seq<T>, key: T -> int, y: T)
    ensures y in Sort(s, key) <==> y in s
  {
    if s != [] {
      SortMembers(s[..|s| - 1], key, y);
      InsertMembers(Sort(s[..|s| - 1], key), s[|s| - 1], key, y);
    }
  }

  lemma {:induction false} InsertSorts<T>(s: seq<T>, x: T, key: T -> int)
    requires SortedBy(s, key)
    ensures SortedBy(Insert(s, x, key), key)
  {
    if s != [] && key(s[|s| - 1]) > key(x) {
      var front := s[..|s| - 1];
      InsertSorts(front, x, key);
      var r := Insert(front, x, key);
      forall i | 0 <= i < |r|
        ensures key(r[i]) <= key(s[|s| - 1])
      {
        assert r[i] in r;
        InsertMembers(front, x, key, r[i]);
      }
    }
  }

  /** The result is sorted and is a permutation of the input. */
  lemma {:induction false} SortSorts<T>(s: seq<T>, key: T -> int)
    ensures SortedBy(Sort(s, key), key)
    ensures multiset(Sort(s, key)) == multiset(s)
  {
    if s != [] {
      SortSorts(s[..|s| - 1], key);
      InsertSorts(Sort(s[..|s| - 1], key), s[|s| - 1], key);
      InsertPermutes(Sort(s[..|s| - 1], key), s[|s| - 1], key);
      assert s == s[..|s| - 1] + [s[|s| - 1]];
    }
  }

  lemma {:induction false} InsertKeepsRanks<T>(s: seq<T>, x: T, key: T -> int, rank: T -> int)
    requires SortedByThen(s, key, rank)
    requires forall y :: y in s ==> rank(y) < rank(x)
    ensures SortedByThen(Insert(s, x, key), key, rank)
  {
    if s != [] && key(s[|s| - 1]) > key(x) {
      var front, last := s[..|s| - 1], s[|s| - 1];
      InsertKeepsRanks(front, x, key, rank);
      var r := Insert(front, x, key);
      forall i | 0 <= i < |r|
        ensures key(r[i]) < key(last) || (key(r[i]) == key(last) && rank(r[i]) < rank(last))
      {
        assert r[i] in r;
        InsertMembers(front, x, key, r[i]);
      }
    }
  }

  /** The sort is stable: elements with equal keys keep the order they came in. */
  lemma {:induction false} SortIsStable<T>(s: seq<T>, key: T -> int, rank: T -> int)
    requires Increasing(s, rank)
    ensures SortedByThen(Sort(s, key), key, rank)
  {
    if s != [] {
      var front := s[..|s| - 1];
      SortIsStable(front, key, rank);
      forall y | y in Sort(front, key)
        ensures rank(y) < rank(s[|s| - 1])
      {
        SortMembers(front, key, y);
      }
      InsertKeepsRanks(Sort(front, key), s[|s| - 1], key, rank);
    }
  }

  lemma WithoutLast<T>(a: seq<T>, key: T -> int)
    requires a != [] && SortedBy(a, key)
    ensures SortedBy(a[..|a| - 1], key)
    ensures multiset(a[..|a| - 1]) == multiset(a) - multiset{a[|a| - 1]}
  {
    assert a == a[..|a| - 1] + [a[|a| - 1]];
  }

  /** The key tells the elements of the two sequences apart. */
  ghost predicate Distinguishes<T>(key: T -> int, a: seq<T>, b: seq<T>) {
    forall i, j :: 0 <= i < |a| && 0 <= j < |b| && key(a[i]) == key(b[j]) ==> a[i] == b[j]
  }

  /** Two sorted arrangements of the same elements are the same sequence. */
  lemma {:induction false} SortedIsUnique<T>(a: seq<T>, b: seq<T>, key: T -> int)
    requires SortedBy(a, key) && SortedBy(b, key)
    requires multiset(a) == multiset(b)
    requires Distinguishes(key, a, b)
    ensures a == b
    decreases |a|
  {
    SameLength(a, b);
    if a != [] {
      var n := |a| - 1;
      SameGreatest(a, b, key);
      WithoutLast(a, key);
      WithoutLast(b, key);
      assert multiset(a[..n]) == multiset(b[..n]);
      SortedIsUnique(a[..n], b[..n], key);
      SplitLast(a);
      SplitLast(b);
    }
  }

  lemma SplitLast<T>(a: seq<T>)
    requires a != []
    ensures a == a[..|a| - 1] + [a[|a| - 1]]
  {
  }

  lemma TakeOne<T>(b: seq<T>, k: nat)
    requires k < |b|
    ensures multiset(b[..k] + b[k + 1..]) == multiset(b) - multiset{b[k]}
  {
    assert b == b[..k] + [b[k]] + b[k + 1..];
  }

  /** Where the last of `a` stands in a rearrangement of it; the others are rearrangements too. */
  lemma PlaceOfLast<T>(a: seq<T>, b: seq<T>) returns (k: nat)
    requires a != [] && multiset(a) == multiset(b)
    ensures k < |b| && b[k] == a[|a| - 1]
    ensures multiset(a[..|a| - 1]) == multiset(b[..k] + b[k + 1..])
  {
    var n := |a| - 1;
    assert a[n] in multiset(b);
    k :| 0 <= k < |b| && b[k] == a[n];
    TakeOne(a, n);
    TakeOne(b, k);
    assert a[..n] + a[n + 1..] == a[..n];
  }

  lemma SameLength<T>(a: seq<T>, b: seq<T>)
    requires multiset(a) == multiset(b)
    ensures |a| == |b|
  {
    assert |multiset(a)| == |a| && |multiset(b)| == |b|;
  }

  lemma SameGreatest<T>(a: seq<T>, b: seq<T>, key: T -> int)
    requires SortedBy(a, key) && SortedBy(b, key)
    requires multiset(a) == multiset(b) && Distinguishes(key, a, b)
    requires |a| == |b| > 0
    ensures a[|a| - 1] == b[|b| - 1]
  {
    var n := |a| - 1;
    assert a[n] in multiset(b) && b[n] in multiset(a);
    var i :| 0 <= i < |b| && b[i] == a[n];
    var j :| 0 <= j < |a| && a[j] == b[n];
    assert key(b[i]) <= key(b[n]) && key(a[j]) <= key(a[n]);
  }

  lemma InsertShifts<T>(s: seq<T>, j: nat, x: T, key: T -> int)
    requires j < |s| && key(s[j]) > key(x)
    ensures Insert(s[..j + 1], x, key) + s[j + 1..] == Insert(s[..j], x, key) + s[j..]
  {
    assert s[..j + 1][..j] == s[..j];
    assert s[j..] == [s[j]] + s[j + 1..];
  }

  lemma InsertStops<T>(s: seq<T>, j: nat, x: T, key: T -> int)
    requires j <= |s| && (j == 0 || key(s[j - 1]) <= key(x))
    ensures Insert(s[..j], x, key) == s[..j] + [x]
  {
  }

  /** The array while the gap is at `j + 1`: the front untouched, what was after it one place right, the rest untouched. */
  ghost predicate Shifted<T>(now: seq<T>, was: seq<T>, j: int, i: nat) {
    && |now| == |was| && -1 <= j < i < |was|
    && (forall k :: 0 <= k <= j ==> now[k] == was[k])
    && (forall k :: j + 2 <= k <= i ==> now[k] == was[k - 1])
    && (forall k :: i < k < |was| ==> now[k] == was[k])
  }

  lemma GapFilled<T>(now: seq<T>, was: seq<T>, j: int, i: nat, x: T)
    requires Shifted(now, was, j, i)
    ensures |now| == |was| && (j >= 0 ==> now[j] == was[j])
    ensures now[j + 1 := x][..i + 1] == was[..j + 1] + [x] + was[j + 1..i]
    ensures now[j + 1 := x][i + 1..] == was[i + 1..]
  {
  }

  lemma GapStarts<T>(was: seq<T>, i: nat)
    requires i < |was|
    ensures Shifted(was, was, i - 1, i)
  {
  }

  lemma GapMoves<T>(now: seq<T>, was: seq<T>, j: nat, i: nat)
    requires Shifted(now, was, j, i)
    ensures Shifted(now[j + 1 := now[j]], was, j - 1, i) && now[j] == was[j]
  {
  }

  /** The inner loop: shift greater elements right, then drop a[i] into the gap. */
  method InsertInPlace<T>(a: array<T>, i: nat, key: T -> int)
    requires i < a.Length
    modifies a
    ensures a[..i + 1] == Insert(old(a[..i]), old(a[i]), key)
    ensures a[i + 1..] == old(a[i + 1..])
  {
    hide Insert, Shifted;
    ghost var was, s := a[..], a[..i];
    var x := a[i];
    GapStarts(was, i);
    assert s[..i] == s;
    var j := i - 1;
    while j >= 0 && key(a[j]) > key(x)
      invariant -1 <= j < i
      invariant Shifted(a[..], was, j, i)
      invariant Insert(s, x, key) == Insert(s[..j + 1], x, key) + s[j + 1..]
    {
      ghost var now := a[..];
      GapMoves(now, was, j, i);
      assert s[j] == was[j];
      InsertShifts(s, j, x, key);
      a[j + 1] := a[j];
      assert a[..] == now[j + 1 := now[j]];
      j := j - 1;
    }
    ghost var now := a[..];
    GapFilled(now, was, j, i, x);
    a[j + 1] := x;
    assert a[..] == now[j + 1 := x];
    InsertStops(s, j + 1, x, key);
    assert was[..j + 1] == s[..j + 1] && was[j + 1..i] == s[j + 1..];
  }

  /** Insertion sort of the first `n` elements of an array. */
  method SortInPlace<T>(a: array<T>, n: nat, key: T -> int)
    requires n <= a.Length
    modifies a
    ensures a[..n] == Sort(old(a[..n]), key)
    ensures a[n..] == old(a[n..])
  {
    ghost var was := a[..];
    if n > 0 {
      assert was[..1] == Sort(was[..1], key);
      var i := 1;
      while i < n
        invariant 1 <= i <= n
        invariant a[..i] == Sort(was[..i], key)
        invariant a[i..] == was[i..]
      {
        assert a[i] == a[i..][0] && a[i + 1..] == a[i..][1..];
        assert was[..i + 1][..i] == was[..i];
        InsertInPlace(a, i, key);
        i := i + 1;
      }
    }
  }
}
