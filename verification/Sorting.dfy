/** Sorting by an integer key, as sort.Slice does for keys that are all different. */
module Sorting {
  ghost predicate Ascending<T>(key: T -> int, xs: seq<T>) {
    forall i, j | 0 <= i < j < |xs| :: key(xs[i]) < key(xs[j])
  }

  ghost predicate Distinct<T>(key: T -> int, xs: seq<T>) {
    forall i, j | 0 <= i < j < |xs| :: key(xs[i]) != key(xs[j])
  }

  function Insert<T>(key: T -> int, x: T, xs: seq<T>): seq<T> {
    if xs == [] || key(x) < key(xs[0]) then [x] + xs else [xs[0]] + Insert(key, x, xs[1..])
  }

  function Sorted<T>(key: T -> int, xs: seq<T>): seq<T> {
    if xs == [] then [] else Insert(key, xs[0], Sorted(key, xs[1..]))
  }

  lemma {:induction false} InsertHolds<T>(key: T -> int, x: T, xs: seq<T>)
    ensures multiset(Insert(key, x, xs)) == multiset(xs) + multiset{x}
  {
    if xs != [] && key(x) >= key(xs[0]) {
      var tail := Insert(key, x, xs[1..]);
      InsertHolds(key, x, xs[1..]);
      assert xs == [xs[0]] + xs[1..];
      assert multiset([xs[0]] + tail) == multiset{xs[0]} + multiset(tail);
    }
  }

  lemma AscendingFrom<T>(key: T -> int, x: T, xs: seq<T>)
    requires Ascending(key, xs) && forall y | y in xs :: key(x) < key(y)
    ensures Ascending(key, [x] + xs)
  {
  }

  lemma {:induction false} InsertKeepsAscending<T>(key: T -> int, x: T, xs: seq<T>)
    requires Ascending(key, xs) && forall y | y in xs :: key(y) != key(x)
    ensures Ascending(key, Insert(key, x, xs))
  {
    if xs == [] {
    } else if key(x) < key(xs[0]) {
      forall y | y in xs ensures key(x) < key(y) {
        var i :| 0 <= i < |xs| && xs[i] == y;
        assert i > 0 ==> key(xs[0]) < key(xs[i]);
      }
      AscendingFrom(key, x, xs);
    } else {
      var tail := Insert(key, x, xs[1..]);
      InsertKeepsAscending(key, x, xs[1..]);
      InsertHolds(key, x, xs[1..]);
      forall y | y in tail ensures key(xs[0]) < key(y) {
        assert y in multiset(tail);
        assert y == x || y in xs[1..];
        assert xs[0] in xs;
      }
      AscendingFrom(key, xs[0], tail);
    }
  }

  /** The result is a permutation and it is in order. */
  lemma {:induction false} SortedSorts<T>(key: T -> int, xs: seq<T>)
    requires Distinct(key, xs)
    ensures multiset(Sorted(key, xs)) == multiset(xs)
    ensures Ascending(key, Sorted(key, xs))
  {
    if xs != [] {
      var tail := Sorted(key, xs[1..]);
      SortedSorts(key, xs[1..]);
      InsertHolds(key, xs[0], tail);
      assert xs == [xs[0]] + xs[1..];
      forall y | y in tail ensures key(y) != key(xs[0]) {
        assert y in multiset(tail);
        var i :| 0 <= i < |xs[1..]| && xs[1..][i] == y;
        assert xs[i + 1] == y;
      }
      InsertKeepsAscending(key, xs[0], tail);
    }
  }

  /** The same elements, whatever their order. */
  lemma SameMembers<T>(xs: seq<T>, ys: seq<T>)
    requires multiset(xs) == multiset(ys)
    ensures forall x :: x in xs <==> x in ys
  {
    assert forall x :: x in xs <==> x in multiset(xs);
  }
}
