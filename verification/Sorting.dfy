/** The standard library's stable `sort_by`, as a function, and what makes its result canonical. */
module Sorting {

  ghost predicate TotalPreorder<T(!new)>(leq: (T, T) -> bool) {
    && (forall a, b :: leq(a, b) || leq(b, a))
    && (forall a, b, c :: leq(a, b) && leq(b, c) ==> leq(a, c))
  }

  // No two different elements of `s` rank equal.
  ghost predicate Antisymmetric<T>(s: seq<T>, leq: (T, T) -> bool) {
    forall a, b :: a in s && b in s && leq(a, b) && leq(b, a) ==> a == b
  }

  ghost predicate Sorted<T>(s: seq<T>, leq: (T, T) -> bool) {
    forall i, j :: 0 <= i < j < |s| ==> leq(s[i], s[j])
  }

  ghost predicate Distinct<T>(s: seq<T>) {
    forall i, j :: 0 <= i < j < |s| ==> s[i] != s[j]
  }

  function Placed<T>(x: T, s: seq<T>, leq: (T, T) -> bool): seq<T> {
    if s == [] || leq(x, s[0]) then [x] + s else [s[0]] + Placed(x, s[1..], leq)
  }

  // Equal elements keep their order: an element is placed before the equal ones that came after it.
  function StableSort<T>(s: seq<T>, leq: (T, T) -> bool): seq<T> {
    if s == [] then [] else Placed(s[0], StableSort(s[1..], leq), leq)
  }

  lemma {:induction false} PlacedKeepsElements<T>(x: T, s: seq<T>, leq: (T, T) -> bool)
    ensures multiset(Placed(x, s, leq)) == multiset{x} + multiset(s)
  {
    if s == [] || leq(x, s[0]) {
    } else {
      PlacedKeepsElements(x, s[1..], leq);
      assert s == [s[0]] + s[1..];
    }
  }

  lemma {:induction false} PlacedStaysSorted<T(!new)>(x: T, s: seq<T>, leq: (T, T) -> bool)
    requires TotalPreorder(leq) && Sorted(s, leq)
    ensures Sorted(Placed(x, s, leq), leq)
  {
    if s == [] || leq(x, s[0]) {
    } else {
      PlacedStaysSorted(x, s[1..], leq);
      var tail := Placed(x, s[1..], leq);
      PlacedKeepsElements(x, s[1..], leq);
      forall y | y in tail ensures leq(s[0], y) {
        assert y in multiset(tail);
        assert y == x || y in s[1..];
      }
    }
  }

  lemma {:induction false} SortKeepsElements<T>(s: seq<T>, leq: (T, T) -> bool)
    ensures multiset(StableSort(s, leq)) == multiset(s)
    ensures |StableSort(s, leq)| == |s|
    ensures forall x :: x in StableSort(s, leq) <==> x in s
  {
    if s == [] {
    } else {
      SortKeepsElements(s[1..], leq);
      PlacedKeepsElements(s[0], StableSort(s[1..], leq), leq);
      assert s == [s[0]] + s[1..];
    }
    assert |multiset(StableSort(s, leq))| == |multiset(s)|;
    forall x ensures x in StableSort(s, leq) <==> x in s {
      assert x in multiset(StableSort(s, leq)) <==> x in multiset(s);
    }
  }

  lemma {:induction false} SortSorts<T(!new)>(s: seq<T>, leq: (T, T) -> bool)
    requires TotalPreorder(leq)
    ensures Sorted(StableSort(s, leq), leq)
  {
    if s == [] {
    } else {
      SortSorts(s[1..], leq);
      PlacedStaysSorted(s[0], StableSort(s[1..], leq), leq);
    }
  }

  // The elements of `s` that rank equal with `x`, in their order.
  function Ties<T>(s: seq<T>, x: T, leq: (T, T) -> bool): seq<T> {
    if s == [] then []
    else (if leq(s[0], x) && leq(x, s[0]) then [s[0]] else []) + Ties(s[1..], x, leq)
  }

  // Elements that rank equal keep their order.
  lemma {:induction false} SortIsStable<T(!new)>(s: seq<T>, x: T, leq: (T, T) -> bool)
    requires TotalPreorder(leq)
    ensures Ties(StableSort(s, leq), x, leq) == Ties(s, x, leq)
  {
    if s == [] {
    } else {
      SortIsStable(s[1..], x, leq);
      PlacedBeforeTies(s[0], StableSort(s[1..], leq), x, leq);
    }
  }

  lemma {:induction false} PlacedBeforeTies<T(!new)>(y: T, s: seq<T>, x: T, leq: (T, T) -> bool)
    requires TotalPreorder(leq)
    ensures Ties(Placed(y, s, leq), x, leq) == (if leq(y, x) && leq(x, y) then [y] else []) + Ties(s, x, leq)
  {
    if s == [] || leq(y, s[0]) {
      TiesOfFirst(y, s, x, leq);
    } else {
      PlacedBeforeTies(y, s[1..], x, leq);
      TiesOfFirst(s[0], Placed(y, s[1..], leq), x, leq);
      NotBoth(s[0], y, x, leq);
    }
  }

  lemma TiesOfFirst<T>(y: T, s: seq<T>, x: T, leq: (T, T) -> bool)
    ensures Ties([y] + s, x, leq) == (if leq(y, x) && leq(x, y) then [y] else []) + Ties(s, x, leq)
  {
    assert ([y] + s)[1..] == s;
  }

  lemma NotBoth<T(!new)>(z: T, y: T, x: T, leq: (T, T) -> bool)
    requires TotalPreorder(leq) && !leq(y, z)
    ensures !(leq(y, x) && leq(x, y)) || !(leq(z, x) && leq(x, z))
  {
    assert leq(y, x) && leq(x, z) ==> leq(y, z);
  }

  lemma {:induction false} DistinctCounts<T>(s: seq<T>)
    ensures Distinct(s) <==> forall x :: x in s ==> multiset(s)[x] == 1
  {
    if s == [] {
    } else {
      var tail := s[1..];
      assert s == [s[0]] + tail;
      DistinctCounts(tail);
      if Distinct(s) {
        assert Distinct(tail);
        assert s[0] !in tail;
        assert multiset(s) == multiset{s[0]} + multiset(tail);
      } else if forall x :: x in s ==> multiset(s)[x] == 1 {
        assert multiset(s)[s[0]] == 1;
        assert s[0] !in multiset(tail);
        forall x | x in tail ensures multiset(tail)[x] == 1 {
          assert x in s && multiset(s)[x] == 1;
        }
        assert false;
      }
    }
  }

  lemma SortKeepsDistinct<T>(s: seq<T>, leq: (T, T) -> bool)
    requires Distinct(s)
    ensures Distinct(StableSort(s, leq))
  {
    SortKeepsElements(s, leq);
    DistinctCounts(s);
    DistinctCounts(StableSort(s, leq));
  }

  lemma TailOfDistinct<T>(s: seq<T>)
    requires Distinct(s) && s != []
    ensures Distinct(s[1..])
    ensures forall x :: x in s[1..] <==> x in s && x != s[0]
  {
    assert s == [s[0]] + s[1..];
  }

  // Two sorted sequences of the same distinct elements are the same sequence: the order in which the
  // elements arrived leaves no trace.
  lemma {:induction false} SortedFormIsUnique<T(!new)>(s: seq<T>, t: seq<T>, leq: (T, T) -> bool)
    requires Antisymmetric(s, leq) && Sorted(s, leq) && Sorted(t, leq) && Distinct(s) && Distinct(t)
    requires forall x :: x in s <==> x in t
    ensures s == t
  {
    assert forall i :: 0 <= i < |t| ==> t[i] in s;
    assert forall i :: 0 <= i < |s| ==> s[i] in t;
    if s == [] {
    } else {
      var i :| 0 <= i < |t| && t[i] == s[0];
      var j :| 0 <= j < |s| && s[j] == t[0];
      assert s[0] == t[0];
      TailOfDistinct(s);
      TailOfDistinct(t);
      SortedFormIsUnique(s[1..], t[1..], leq);
      assert s == [s[0]] + s[1..] && t == [t[0]] + t[1..];
    }
  }
}
