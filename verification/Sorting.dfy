/** Ordering of byte strings, and sorting a slice in place by a strict weak order. */
module Sorting {

  // Go's < on strings: bytewise lexicographic.
  predicate Less(a: string, b: string) {
    b != "" && (a == "" || a[0] < b[0] || (a[0] == b[0] && Less(a[1..], b[1..])))
  }

  lemma {:induction false} LessIsTotal(a: string, b: string)
    ensures Less(a, b) || Less(b, a) || a == b
    ensures !(Less(a, b) && Less(b, a))
    decreases |a| + |b|
  {
    if a != "" && b != "" && a[0] == b[0] {
      LessIsTotal(a[1..], b[1..]);
      assert a[1..] == b[1..] ==> a == [a[0]] + b[1..] == b;
    }
  }

  lemma {:induction false} LessIsTransitive(a: string, b: string, c: string)
    requires Less(a, b) && Less(b, c)
    ensures Less(a, c)
  {
    if a != "" && a[0] == b[0] && b[0] == c[0] { LessIsTransitive(a[1..], b[1..], c[1..]); }
  }

  // ----- Sorting by any strict weak order ---------------------------------------------------------

  ghost predicate StrictWeakOrder<T(!new)>(before: (T, T) -> bool) {
    && (forall x :: !before(x, x))
    && (forall x, y, z :: before(x, y) && before(y, z) ==> before(x, z))
    && (forall x, y, z :: before(x, z) ==> before(x, y) || before(y, z))
  }

  ghost predicate Sorted<T(!new)>(before: (T, T) -> bool, s: seq<T>) {
    forall i, j | 0 <= i < j < |s| :: !before(s[j], s[i])
  }

  function Insert<T>(before: (T, T) -> bool, x: T, s: seq<T>): seq<T> {
    if s == [] || !before(s[0], x) then [x] + s else [s[0]] + Insert(before, x, s[1..])
  }

  function Sort<T>(before: (T, T) -> bool, s: seq<T>): seq<T> {
    if s == [] then [] else Insert(before, s[0], Sort(before, s[1..]))
  }

  lemma {:induction false} InsertPermutes<T>(before: (T, T) -> bool, x: T, s: seq<T>)
    ensures multiset(Insert(before, x, s)) == multiset(s) + multiset{x}
  {
    if s != [] && before(s[0], x) {
      var rest := Insert(before, x, s[1..]);
      InsertPermutes(before, x, s[1..]);
      assert Insert(before, x, s) == [s[0]] + rest;
      hide Insert;
      HeadCounts(s[0], rest);
      HeadCounts(s[0], s[1..]);
      assert s == [s[0]] + s[1..];
    } else {
      assert Insert(before, x, s) == [x] + s;
      HeadCounts(x, s);
    }
  }

  lemma HeadCounts<T>(x: T, s: seq<T>)
    ensures multiset([x] + s) == multiset{x} + multiset(s)
  {
  }

  lemma {:induction false} InsertSorts<T(!new)>(before: (T, T) -> bool, x: T, s: seq<T>)
    requires StrictWeakOrder(before) && Sorted(before, s)
    ensures Sorted(before, Insert(before, x, s))
  {
    if s != [] && before(s[0], x) {
      InsertSorts(before, x, s[1..]);
      InsertPermutes(before, x, s[1..]);
      var rest := Insert(before, x, s[1..]);
      forall j | 0 <= j < |rest| ensures !before(rest[j], s[0]) {
        assert rest[j] in multiset(rest);
        assert rest[j] == x || rest[j] in s[1..];
      }
    }
  }

  /** Sorting yields the same elements in order. */
  lemma {:induction false} SortSorts<T(!new)>(before: (T, T) -> bool, s: seq<T>)
    requires StrictWeakOrder(before)
    ensures Sorted(before, Sort(before, s)) && Reordering(Sort(before, s), s)
  {
    if s != [] {
      SortSorts(before, s[1..]);
      InsertSorts(before, s[0], Sort(before, s[1..]));
      InsertPermutes(before, s[0], Sort(before, s[1..]));
      assert s == [s[0]] + s[1..];
    }
  }

  /** Sorting a sorted list changes nothing. */
  lemma {:induction false} SortOfSorted<T(!new)>(before: (T, T) -> bool, s: seq<T>)
    requires Sorted(before, s)
    ensures Sort(before, s) == s
  {
    if s != [] { SortOfSorted(before, s[1..]); }
  }

  // Different elements are never tied.
  ghost predicate Separated<T(!new)>(before: (T, T) -> bool, s: seq<T>) {
    forall x, y | x in s && y in s && x != y :: before(x, y) || before(y, x)
  }

  // The same elements, each as often, in any order.
  ghost predicate Reordering<T>(a: seq<T>, b: seq<T>) { multiset(a) == multiset(b) }

  lemma DropAt<T>(s: seq<T>, k: nat)
    requires k < |s|
    ensures multiset(s[..k] + s[k + 1..]) == multiset(s) - multiset{s[k]}
  {
    assert s == s[..k] + [s[k]] + s[k + 1..];
  }

  lemma NothingReordered<T>(s: seq<T>)
    ensures Reordering(s, s)
  {
  }

  lemma ReorderingFacts<T>(a: seq<T>, b: seq<T>)
    requires Reordering(a, b)
    ensures |a| == |b| && (a != [] ==> a[0] in b && b[0] in a)
  {
    assert |multiset(a)| == |a| && |multiset(b)| == |b|;
    if a != [] { assert a[0] in multiset(b) && b[0] in multiset(a); }
  }

  lemma ReorderingOfRest<T>(a: seq<T>, b: seq<T>, k: nat)
    requires Reordering(a, b) && a != [] && k < |b| && b[k] == a[0]
    ensures Reordering(a[1..], b[..k] + b[k + 1..])
  {
    DropAt(a, 0);
    DropAt(b, k);
    assert a[..0] + a[1..] == a[1..];
  }

  lemma ReorderingExtends<T>(a: seq<T>, b: seq<T>, k: nat)
    requires a != [] && k < |b| && b[k] == a[0] && Reordering(a[1..], b[..k] + b[k + 1..])
    ensures Reordering(a, b)
  {
    AddAt(a, 0);
    AddAt(b, k);
    assert a[..0] + a[1..] == a[1..];
  }

  lemma AddAt<T>(s: seq<T>, k: nat)
    requires k < |s|
    ensures multiset(s) == multiset(s[..k] + s[k + 1..]) + multiset{s[k]}
  {
    assert s == s[..k] + [s[k]] + s[k + 1..];
  }

  /** A list without ties has one sorted order. */
  lemma {:induction false} SortedOrderIsUnique<T(!new)>(before: (T, T) -> bool, a: seq<T>, b: seq<T>)
    requires Sorted(before, a) && Sorted(before, b) && Separated(before, a) && Reordering(a, b)
    ensures a == b
  {
    hide Reordering, Sorted, Separated;
    ReorderingFacts(a, b);
    if a != [] {
      HeadsAgree(before, a, b);
      TailKeeps(before, a);
      TailKeeps(before, b);
      ReorderingOfRest(a, b, 0);
      assert b[..0] + b[1..] == b[1..];
      SortedOrderIsUnique(before, a[1..], b[1..]);
    }
  }

  lemma TailKeeps<T(!new)>(before: (T, T) -> bool, s: seq<T>)
    requires Sorted(before, s) && s != []
    ensures Sorted(before, s[1..]) && (Separated(before, s) ==> Separated(before, s[1..]))
  {
    forall x | x in s[1..] ensures x in s {}
  }

  lemma HeadsAgree<T(!new)>(before: (T, T) -> bool, a: seq<T>, b: seq<T>)
    requires Sorted(before, a) && Sorted(before, b) && Separated(before, a) && a != [] && b != []
    requires a[0] in b && b[0] in a
    ensures a[0] == b[0]
  {
    var i :| 0 <= i < |b| && b[i] == a[0];
    var j :| 0 <= j < |a| && a[j] == b[0];
    assert i > 0 ==> !before(a[0], b[0]);
    assert j > 0 ==> !before(b[0], a[0]);
  }

  lemma SortIgnoresOrder<T(!new)>(before: (T, T) -> bool, a: seq<T>, b: seq<T>)
    requires StrictWeakOrder(before) && Reordering(a, b) && Separated(before, Sort(before, a))
    ensures Sort(before, a) == Sort(before, b)
  {
    SortSorts(before, a);
    SortSorts(before, b);
    SortedOrderIsUnique(before, Sort(before, a), Sort(before, b));
  }

  // ----- Mapping over a reordered list ----------------------------------------------------------------

  function Map<S, T>(f: S -> T, s: seq<S>): (r: seq<T>)
    ensures |r| == |s| && forall i | 0 <= i < |s| :: r[i] == f(s[i])
  {
    seq(|s|, i requires 0 <= i < |s| => f(s[i]))
  }

  lemma {:induction false} MapKeepsReordering<S, T>(f: S -> T, a: seq<S>, b: seq<S>)
    requires Reordering(a, b)
    ensures Reordering(Map(f, a), Map(f, b))
  {
    hide Reordering, Map;
    ReorderingFacts(a, b);
    if a != [] {
      var k :| 0 <= k < |b| && b[k] == a[0];
      ReorderingOfRest(a, b, k);
      MapKeepsReordering(f, a[1..], b[..k] + b[k + 1..]);
      MapReplaces(f, a, b, k);
    } else {
      assert Map(f, a) == Map(f, b);
      NothingReordered(Map(f, a));
    }
  }

  lemma MapReplaces<S, T>(f: S -> T, a: seq<S>, b: seq<S>, k: nat)
    requires a != [] && k < |b| && b[k] == a[0]
    requires Reordering(Map(f, a[1..]), Map(f, b[..k] + b[k + 1..]))
    ensures Reordering(Map(f, a), Map(f, b))
  {
    hide Reordering, Map;
    MapRest(f, a);
    MapDropsAt(f, b, k);
    assert Map(f, a)[0] == f(a[0]) && Map(f, b)[k] == f(b[k]);
    ReorderingExtends(Map(f, a), Map(f, b), k);
  }

  lemma MapRest<S, T>(f: S -> T, s: seq<S>)
    requires s != []
    ensures Map(f, s[1..]) == Map(f, s)[1..]
  {
  }

  lemma MapDropsAt<S, T>(f: S -> T, s: seq<S>, k: nat)
    requires k < |s|
    ensures Map(f, s[..k] + s[k + 1..]) == Map(f, s)[..k] + Map(f, s)[k + 1..]
  {
  }

  // ----- Sorting in place --------------------------------------------------------------------------------

  lemma InsertMoves<T>(before: (T, T) -> bool, x: T, done: seq<T>, next: T, tail: seq<T>)
    requires before(next, x)
    ensures done + Insert(before, x, [next] + tail) == (done + [next]) + Insert(before, x, tail)
  {
    assert ([next] + tail)[1..] == tail;
  }

  lemma InsertStops<T>(before: (T, T) -> bool, x: T, rest: seq<T>)
    requires rest == [] || !before(rest[0], x)
    ensures Insert(before, x, rest) == [x] + rest
  {
  }

  // x is being sifted: the elements before it are in place, those after it are as they were.
  ghost predicate Sifting<T>(all: seq<T>, front: seq<T>, done: seq<T>, x: T, tail: seq<T>) {
    all == front + done + [x] + tail
  }

  lemma SiftStarts<T>(all: seq<T>, i: nat)
    requires i < |all|
    ensures Sifting(all, all[..i], [], all[i], all[i + 1..])
  {
  }

  lemma SiftAt<T>(all: seq<T>, front: seq<T>, done: seq<T>, x: T, tail: seq<T>)
    requires Sifting(all, front, done, x, tail)
    ensures var j := |front| + |done|; |all| == j + 1 + |tail| && all[j] == x && (tail != [] ==> all[j + 1] == tail[0])
  {
  }

  lemma SiftSwaps<T>(all: seq<T>, front: seq<T>, done: seq<T>, x: T, tail: seq<T>)
    requires Sifting(all, front, done, x, tail) && tail != []
    ensures var j := |front| + |done|;
      j + 1 < |all| && Sifting(all[j := tail[0]][j + 1 := x], front, done + [tail[0]], x, tail[1..])
  {
    var j := |front| + |done|;
    var swapped, target := all[j := tail[0]][j + 1 := x], front + (done + [tail[0]]) + [x] + tail[1..];
    assert |swapped| == |target|;
    forall k | 0 <= k < |target| ensures swapped[k] == target[k] {}
  }

  lemma SiftEnds<T>(all: seq<T>, front: seq<T>, done: seq<T>, x: T, tail: seq<T>)
    requires Sifting(all, front, done, x, tail)
    ensures |front| <= |all| && all[..|front|] == front && all[|front|..] == done + ([x] + tail)
  {
  }

  method SwapNext<T>(a: array<T>, j: nat)
    requires j + 1 < a.Length
    modifies a
    ensures a[..] == old(a[..])[j := old(a[j + 1])][j + 1 := old(a[j])]
  {
    a[j], a[j + 1] := a[j + 1], a[j];
  }

  // Moves a[i] right past every element that belongs before it.
  method SiftRight<T>(before: (T, T) -> bool, a: array<T>, i: nat)
    requires i < a.Length
    modifies a
    ensures a[..i] == old(a[..i])
    ensures a[i..] == Insert(before, old(a[i]), old(a[i + 1..]))
  {
    hide Insert, Sifting;
    var j := i;
    ghost var x, front, done, tail := a[i], a[..i], [], a[i + 1..];
    ghost var target := Insert(before, x, tail);
    SiftStarts(a[..], i);
    SiftAt(a[..], front, done, x, tail);
    assert a[..][..i] == front && a[..][i + 1..] == tail;
    while j + 1 < a.Length && before(a[j + 1], a[j])
      invariant |front| == i <= j < a.Length && j == i + |done| && |a[..]| == j + 1 + |tail|
      invariant Sifting(a[..], front, done, x, tail)
      invariant done + Insert(before, x, tail) == target
    {
      SiftAt(a[..], front, done, x, tail);
      SiftSwaps(a[..], front, done, x, tail);
      InsertMoves(before, x, done, tail[0], tail[1..]);
      assert [tail[0]] + tail[1..] == tail;
      SwapNext(a, j);
      j, done, tail := j + 1, done + [tail[0]], tail[1..];
    }
    SiftAt(a[..], front, done, x, tail);
    InsertStops(before, x, tail);
    SiftEnds(a[..], front, done, x, tail);
    assert a[i..] == a[..][i..] && a[..i] == a[..][..i];
  }

  // sort.Slice on a slice, as an insertion sort from the right.
  method SortSlice<T>(before: (T, T) -> bool, a: array<T>)
    modifies a
    ensures a[..] == Sort(before, old(a[..]))
  {
    var i := a.Length;
    ghost var was := a[..];
    while i > 0
      invariant 0 <= i <= a.Length && a[..i] == was[..i]
      invariant a[i..] == Sort(before, was[i..])
    {
      i := i - 1;
      assert a[i] == was[i] && was[i..] == [was[i]] + was[i + 1..];
      ghost var front := a[..i];
      SiftRight(before, a, i);
      assert was[i..][1..] == was[i + 1..];
    }
    assert a[..] == a[0..] && was == was[0..];
  }

  method SortedCopy<T>(before: (T, T) -> bool, items: seq<T>) returns (sorted: seq<T>)
    ensures sorted == Sort(before, items)
  {
    var copy := new T[|items|](i requires 0 <= i < |items| => items[i]);
    assert copy[..] == items;
    SortSlice(before, copy);
    sorted := copy[..];
  }
}
