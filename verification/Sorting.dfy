/** `sorted` of Python: a stable sort by a given order, and when its result is fixed by the elements. */
module Sorting {

  /** Inserts in front of the first element that is not smaller. */
  function Insert<T>(x: T, xs: seq<T>, atMost: (T, T) -> bool): seq<T> {
    if xs == [] || atMost(x, xs[0]) then [x] + xs else [xs[0]] + Insert(x, xs[1..], atMost)
  }

  function Sort<T>(xs: seq<T>, atMost: (T, T) -> bool): seq<T> {
    if xs == [] then [] else Insert(xs[0], Sort(xs[1..], atMost), atMost)
  }

  ghost predicate Sorted<T>(xs: seq<T>, atMost: (T, T) -> bool) {
    forall i, j | 0 <= i < j < |xs| :: atMost(xs[i], xs[j])
  }

  ghost predicate TotalOrder<T(!new)>(atMost: (T, T) -> bool) {
    && (forall x, y :: atMost(x, y) || atMost(y, x))
    && (forall x, y, z :: atMost(x, y) && atMost(y, z) ==> atMost(x, z))
  }

  /** No two different elements are equal for the order. */
  ghost predicate Separates<T(!new)>(atMost: (T, T) -> bool, xs: seq<T>) {
    forall x, y | x in xs && y in xs && atMost(x, y) && atMost(y, x) :: x == y
  }

  lemma {:induction false} InsertKeeps<T>(x: T, xs: seq<T>, atMost: (T, T) -> bool)
    ensures multiset(Insert(x, xs, atMost)) == multiset{x} + multiset(xs)
    decreases |xs|
  {
    if xs != [] && !atMost(x, xs[0]) {
      InsertKeeps(x, xs[1..], atMost);
      assert xs == [xs[0]] + xs[1..];
    }
  }

  lemma {:induction false} SortKeeps<T>(xs: seq<T>, atMost: (T, T) -> bool)
    ensures multiset(Sort(xs, atMost)) == multiset(xs)
    ensures forall x :: x in Sort(xs, atMost) <==> x in xs
    decreases |xs|
  {
    if xs != [] {
      SortKeeps(xs[1..], atMost);
      InsertKeeps(xs[0], Sort(xs[1..], atMost), atMost);
      assert xs == [xs[0]] + xs[1..];
    }
    SameMembers(Sort(xs, atMost), xs);
  }

  lemma SameMembers<T>(xs: seq<T>, ys: seq<T>)
    requires multiset(xs) == multiset(ys)
    ensures forall x :: x in xs <==> x in ys
  {
    forall x ensures x in xs <==> x in ys {
      assert x in xs <==> x in multiset(xs);
      assert x in ys <==> x in multiset(ys);
    }
  }

  lemma SortedCons<T>(x: T, xs: seq<T>, atMost: (T, T) -> bool)
    requires Sorted(xs, atMost) && forall y <- xs :: atMost(x, y)
    ensures Sorted([x] + xs, atMost)
  {
  }

  lemma {:induction false} InsertSorts<T(!new)>(x: T, xs: seq<T>, atMost: (T, T) -> bool)
    requires TotalOrder(atMost) && Sorted(xs, atMost)
    ensures Sorted(Insert(x, xs, atMost), atMost)
    decreases |xs|
  {
    if xs == [] || atMost(x, xs[0]) {
      assert forall y <- xs :: atMost(x, y);
      SortedCons(x, xs, atMost);
    } else {
      var rest := Insert(x, xs[1..], atMost);
      InsertSorts(x, xs[1..], atMost);
      InsertKeeps(x, xs[1..], atMost);
      forall y | y in rest ensures atMost(xs[0], y) {
        assert y in multiset(rest);
        assert y == x || y in xs[1..];
      }
      SortedCons(xs[0], rest, atMost);
    }
  }

  lemma {:induction false} SortSorts<T(!new)>(xs: seq<T>, atMost: (T, T) -> bool)
    requires TotalOrder(atMost)
    ensures Sorted(Sort(xs, atMost), atMost)
    decreases |xs|
  {
    if xs != [] {
      SortSorts(xs[1..], atMost);
      InsertSorts(xs[0], Sort(xs[1..], atMost), atMost);
    }
  }

  lemma FirstIsLeast<T(!new)>(xs: seq<T>, x: T, atMost: (T, T) -> bool)
    requires TotalOrder(atMost) && Sorted(xs, atMost) && x in xs
    ensures atMost(xs[0], x)
  {
    var i :| 0 <= i < |xs| && xs[i] == x;
    assert i == 0 ==> atMost(x, x);
  }

  lemma WithoutHead<T>(xs: seq<T>)
    requires xs != []
    ensures multiset(xs[1..]) == multiset(xs) - multiset{xs[0]}
  {
    assert xs == [xs[0]] + xs[1..];
  }

  /** A sorted list is fixed by its elements when the order tells them apart. */
  lemma {:induction false} SortedIsUnique<T(!new)>(xs: seq<T>, ys: seq<T>, atMost: (T, T) -> bool)
    requires TotalOrder(atMost) && Sorted(xs, atMost) && Sorted(ys, atMost)
    requires multiset(xs) == multiset(ys) && Separates(atMost, xs)
    ensures xs == ys
    decreases |xs|
  {
    SameMembers(xs, ys);
    if xs == [] {
      assert |multiset(ys)| == 0;
    } else {
      assert xs[0] in ys && ys[0] in xs;
      FirstIsLeast(xs, ys[0], atMost);
      FirstIsLeast(ys, xs[0], atMost);
      WithoutHead(xs);
      WithoutHead(ys);
      assert forall x <- xs[1..] :: x in xs;
      SortedIsUnique(xs[1..], ys[1..], atMost);
    }
  }

  /** Sorting forgets the order of its input. */
  lemma SortForgetsOrder<T(!new)>(xs: seq<T>, ys: seq<T>, atMost: (T, T) -> bool)
    requires TotalOrder(atMost) && multiset(xs) == multiset(ys) && Separates(atMost, xs)
    ensures Sort(xs, atMost) == Sort(ys, atMost)
  {
    SortKeeps(xs, atMost);
    SortKeeps(ys, atMost);
    SortSorts(xs, atMost);
    SortSorts(ys, atMost);
    SortedIsUnique(Sort(xs, atMost), Sort(ys, atMost), atMost);
  }

  // ---------------------------------------------------------------- without repetitions

  /** The elements without later repetitions. */
  function Once<T(==)>(xs: seq<T>): seq<T> {
    if xs == [] then []
    else
      var init := Once(xs[..|xs|-1]);
      if xs[|xs|-1] in init then init else init + [xs[|xs|-1]]
  }

  lemma {:induction false} OnceKeeps<T>(xs: seq<T>)
    ensures (forall x :: x in Once(xs) <==> x in xs) && forall x :: multiset(Once(xs))[x] <= 1
    decreases |xs|
  {
    if xs != [] {
      OnceKeeps(xs[..|xs|-1]);
      assert xs == xs[..|xs|-1] + [xs[|xs|-1]];
    }
  }

  /** `sorted(set(xs))` depends on the set only. */
  lemma SortedSet<T(!new)>(xs: seq<T>, ys: seq<T>, atMost: (T, T) -> bool)
    requires TotalOrder(atMost) && (forall x :: x in xs <==> x in ys) && Separates(atMost, xs)
    ensures Sort(Once(xs), atMost) == Sort(Once(ys), atMost)
  {
    OnceKeeps(xs);
    OnceKeeps(ys);
    forall x ensures multiset(Once(xs))[x] == multiset(Once(ys))[x] {
      assert x in multiset(Once(xs)) <==> x in Once(xs);
      assert x in multiset(Once(ys)) <==> x in Once(ys);
    }
    SortForgetsOrder(Once(xs), Once(ys), atMost);
  }
}
