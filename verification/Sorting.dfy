/** The stable sort that the components call: elements that neither precede each other keep their order. */
module Sorting {
  import opened Collections

  /** `before(a, b)`: a belongs strictly before b. */
  ghost predicate StrictWeakOrder<T(!new)>(before: (T, T) -> bool) {
    forall a, b, c :: WeaklyOrdered(before, a, b, c)
  }

  ghost predicate WeaklyOrdered<T>(before: (T, T) -> bool, a: T, b: T, c: T) {
    && (before(a, b) ==> !before(b, a))
    && (!before(a, b) && !before(b, c) ==> !before(a, c))
  }

  ghost predicate Sorted<T(!new)>(s: seq<T>, before: (T, T) -> bool) {
    forall i, j :: 0 <= i < j < |s| ==> !before(s[j], s[i])
  }

  /** Puts a later element after everything that it does not strictly precede. */
  function Insert<T>(s: seq<T>, x: T, before: (T, T) -> bool): seq<T> {
    if s == [] || !before(x, Last(s)) then s + [x] else Insert(Front(s), x, before) + [Last(s)]
  }

  function StableSort<T>(s: seq<T>, before: (T, T) -> bool): seq<T> {
    if s == [] then [] else Insert(StableSort(Front(s), before), Last(s), before)
  }

  lemma {:induction false} InsertKeeps<T>(s: seq<T>, x: T, before: (T, T) -> bool)
    ensures |Insert(s, x, before)| == |s| + 1
    ensures multiset(Insert(s, x, before)) == multiset(s) + multiset{x}
  {
    if s != [] && before(x, Last(s)) {
      InsertKeeps(Front(s), x, before);
      assert s == Front(s) + [Last(s)];
    }
  }

  /** What nothing in `s` and not `x` comes before stays so. */
  lemma InsertMembers<T(!new)>(s: seq<T>, x: T, before: (T, T) -> bool, y: T, s': seq<T>)
    requires s' == Insert(s, x, before)
    requires !before(y, x) && forall i :: 0 <= i < |s| ==> !before(y, s[i])
    ensures forall i :: 0 <= i < |s'| ==> !before(y, s'[i])
  {
    InsertKeeps(s, x, before);
    forall i | 0 <= i < |s'|
      ensures !before(y, s'[i])
    {
      assert s'[i] in multiset(s');
      if s'[i] != x {
        assert s'[i] in multiset(s);
      }
    }
  }

  lemma {:induction false} InsertSorts<T(!new)>(s: seq<T>, x: T, before: (T, T) -> bool)
    requires StrictWeakOrder(before) && Sorted(s, before)
    ensures Sorted(Insert(s, x, before), before)
  {
    InsertKeeps(s, x, before);
    if s == [] {
    } else if before(x, Last(s)) {
      InsertSorts(Front(s), x, before);
      var y := Last(s);
      assert WeaklyOrdered(before, x, y, x);
      assert forall i :: 0 <= i < |Front(s)| ==> !before(s[|s| - 1], s[i]);
      var s' := Insert(Front(s), x, before);
      InsertMembers(Front(s), x, before, y, s');
      forall i, j | 0 <= i < j < |s' + [Last(s)]|
        ensures !before((s' + [Last(s)])[j], (s' + [Last(s)])[i])
      {
        assert j < |s'| ==> !before(s'[j], s'[i]);
        assert j == |s'| ==> !before(y, s'[i]);
      }
    } else {
      forall i | 0 <= i < |s|
        ensures !before(x, s[i])
      {
        assert WeaklyOrdered(before, x, Last(s), s[i]);
      }
    }
  }

  /** The result is sorted and has the same elements. */
  lemma {:induction false} SortSorts<T(!new)>(s: seq<T>, before: (T, T) -> bool)
    requires StrictWeakOrder(before)
    ensures Sorted(StableSort(s, before), before)
    ensures multiset(StableSort(s, before)) == multiset(s)
    ensures |StableSort(s, before)| == |s|
  {
    if s != [] {
      SortSorts(Front(s), before);
      InsertSorts(StableSort(Front(s), before), Last(s), before);
      InsertKeeps(StableSort(Front(s), before), Last(s), before);
      assert s == Front(s) + [Last(s)];
    }
  }

  /** Nothing precedes `s[k]`, and it strictly precedes everything that comes earlier in `s`. */
  ghost predicate EarliestBest<T(!new)>(s: seq<T>, before: (T, T) -> bool, k: nat)
    requires k < |s|
  {
    && (forall j :: 0 <= j < |s| ==> !before(s[j], s[k]))
    && (forall j :: 0 <= j < k ==> before(s[k], s[j]))
  }

  lemma {:induction false} InsertHead<T(!new)>(s: seq<T>, x: T, before: (T, T) -> bool)
    requires s != [] && StrictWeakOrder(before) && Sorted(s, before)
    ensures |Insert(s, x, before)| > 0 && Insert(s, x, before)[0] == if before(x, s[0]) then x else s[0]
  {
    if before(x, Last(s)) {
      if |s| > 1 {
        InsertHead(Front(s), x, before);
      }
    } else {
      assert WeaklyOrdered(before, x, Last(s), s[0]);
    }
  }

  /** The head of the sorted list is the earliest of the best elements. */
  lemma {:induction false} SortHead<T(!new)>(s: seq<T>, before: (T, T) -> bool) returns (k: nat)
    requires s != [] && StrictWeakOrder(before)
    ensures |StableSort(s, before)| == |s| && k < |s| && StableSort(s, before)[0] == s[k] && EarliestBest(s, before, k)
  {
    SortSorts(s, before);
    assert WeaklyOrdered(before, Last(s), Last(s), Last(s));
    if |s| == 1 {
      assert StableSort(Front(s), before) == [];
      return 0;
    }
    k := SortHead(Front(s), before);
    SortSorts(Front(s), before);
    InsertHead(StableSort(Front(s), before), Last(s), before);
    BestOfMore(Front(s), Last(s), before, k);
    FrontAndLast(s);
    if before(Last(s), s[k]) {
      k := |s| - 1;
    }
  }

  /** One more element is the earliest best exactly when it precedes the one that was. */
  lemma BestOfMore<T(!new)>(s: seq<T>, x: T, before: (T, T) -> bool, k: nat)
    requires StrictWeakOrder(before) && k < |s| && EarliestBest(s, before, k)
    ensures EarliestBest(s + [x], before, if before(x, s[k]) then |s| else k)
  {
    var more := s + [x];
    assert WeaklyOrdered(before, x, x, x);
    if before(x, s[k]) {
      forall j | 0 <= j < |s|
        ensures before(more[|s|], more[j]) && !before(more[j], more[|s|])
      {
        assert !before(s[j], s[k]);
        assert WeaklyOrdered(before, x, s[j], s[k]);
        assert WeaklyOrdered(before, x, s[j], x);
      }
    }
  }
}
