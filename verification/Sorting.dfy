/** Python's `sorted` under a strict order, which may be by a key, and the facts that make its result unique. */
module Sorting {
  import opened Ordering

  /** A strict order in which standing level is transitive, as in every order by a key. */
  ghost predicate IsStrictOrder<T(!new)>(before: (T, T) -> bool)
  {
    && (forall a :: !before(a, a))
    && (forall a, b, c :: before(a, b) && before(b, c) ==> before(a, c))
    && (forall a, b, c :: before(a, c) ==> before(a, b) || before(b, c))
  }

  /** No two different elements of `s` stand level. */
  ghost predicate Comparable<T>(s: seq<T>, before: (T, T) -> bool)
  {
    forall a, b :: a in s && b in s ==> a == b || before(a, b) || before(b, a)
  }

  ghost predicate IsTotal<T(!new)>(before: (T, T) -> bool)
  {
    forall a, b :: a == b || before(a, b) || before(b, a)
  }

  /** Nothing stands behind an element that belongs after it. */
  ghost predicate IsSorted<T>(s: seq<T>, before: (T, T) -> bool)
  {
    forall i, j :: 0 <= i < j < |s| ==> !before(s[j], s[i])
  }

  ghost predicate Distinct<T>(s: seq<T>)
  {
    forall i, j :: 0 <= i < j < |s| ==> s[i] != s[j]
  }

  function Insert<T>(s: seq<T>, x: T, before: (T, T) -> bool): seq<T>
  {
    if |s| == 0 || before(x, s[0]) then [x] + s else [s[0]] + Insert(s[1..], x, before)
  }

  function Sorted<T>(s: seq<T>, before: (T, T) -> bool): seq<T>
  {
    if |s| == 0 then [] else Insert(Sorted(s[..|s| - 1], before), s[|s| - 1], before)
  }

  lemma {:induction false} InsertAdds<T>(s: seq<T>, x: T, before: (T, T) -> bool)
    ensures multiset(Insert(s, x, before)) == multiset(s) + multiset{x}
  {
    if |s| > 0 {
      assert s == [s[0]] + s[1..];
      if !before(x, s[0]) { InsertAdds(s[1..], x, before); }
    }
  }

  lemma {:induction false} InsertKeepsOrder<T(!new)>(s: seq<T>, x: T, before: (T, T) -> bool)
    requires IsStrictOrder(before) && IsSorted(s, before)
    ensures IsSorted(Insert(s, x, before), before)
  {
    if |s| > 0 {
      var rest := s[1..];
      if before(x, s[0]) {
        forall y | y in s ensures !before(y, x) { HeadIsLeast(s, y, before); }
      } else {
        var more := Insert(rest, x, before);
        InsertKeepsOrder(rest, x, before);
        InsertAdds(rest, x, before);
        forall y | y in more ensures !before(y, s[0]) {
          assert y in multiset(more);
          assert y == x || y in rest;
        }
      }
    }
  }

  lemma HeadIsLeast<T(!new)>(s: seq<T>, y: T, before: (T, T) -> bool)
    requires IsStrictOrder(before) && IsSorted(s, before) && y in s
    ensures !before(y, s[0])
  {
    var i :| 0 <= i < |s| && s[i] == y;
    assert 0 < i ==> !before(s[i], s[0]);
  }

  /** Sorting keeps the elements and puts them in order. */
  lemma {:induction false} SortedSorts<T(!new)>(s: seq<T>, before: (T, T) -> bool)
    requires IsStrictOrder(before)
    ensures IsSorted(Sorted(s, before), before)
    ensures multiset(Sorted(s, before)) == multiset(s)
  {
    hide IsStrictOrder;
    hide IsSorted;
    hide Insert;
    if |s| > 0 {
      var front, x := s[..|s| - 1], s[|s| - 1];
      SortedSorts(front, before);
      InsertKeepsOrder(Sorted(front, before), x, before);
      InsertAdds(Sorted(front, before), x, before);
      assert s == front + [x];
    } else {
      NothingIsSorted(s, before);
    }
  }

  lemma NothingIsSorted<T>(s: seq<T>, before: (T, T) -> bool)
    requires |s| == 0
    ensures Sorted(s, before) == s && IsSorted(s, before)
  {
  }

  lemma LastIsGreatest<T(!new)>(s: seq<T>, before: (T, T) -> bool, x: T)
    requires IsStrictOrder(before) && IsSorted(s, before) && x in s
    ensures !before(s[|s| - 1], x)
  {
    var i :| 0 <= i < |s| && s[i] == x;
    assert i < |s| - 1 ==> !before(s[|s| - 1], s[i]);
  }

  /** There is one way to put given elements in order. */
  lemma {:induction false} SortedIsUnique<T(!new)>(a: seq<T>, b: seq<T>, before: (T, T) -> bool)
    requires IsStrictOrder(before) && IsSorted(a, before) && IsSorted(b, before)
    requires Comparable(a, before) && multiset(a) == multiset(b)
    ensures a == b
    decreases |a|
  {
    hide IsStrictOrder;
    hide IsSorted;
    hide Comparable;
    assert |multiset(a)| == |a| && |multiset(b)| == |b|;
    if |a| > 0 {
      LastsAgree(a, b, before);
      FrontIsSorted(a, before);
      FrontIsSorted(b, before);
      FrontCounts(a);
      FrontCounts(b);
      SortedIsUnique(a[..|a| - 1], b[..|b| - 1], before);
      assert a == a[..|a| - 1] + [a[|a| - 1]];
    }
  }

  lemma TotalIsComparable<T(!new)>(s: seq<T>, before: (T, T) -> bool)
    requires IsTotal(before)
    ensures Comparable(s, before)
  {
  }

  lemma FrontIsSorted<T>(s: seq<T>, before: (T, T) -> bool)
    requires |s| > 0 && IsSorted(s, before)
    ensures IsSorted(s[..|s| - 1], before)
    ensures Comparable(s, before) ==> Comparable(s[..|s| - 1], before)
  {
  }

  lemma FrontCounts<T>(s: seq<T>)
    requires |s| > 0
    ensures multiset(s[..|s| - 1]) == multiset(s) - multiset{s[|s| - 1]}
  {
    assert s == s[..|s| - 1] + [s[|s| - 1]];
  }

  lemma LastsAgree<T(!new)>(a: seq<T>, b: seq<T>, before: (T, T) -> bool)
    requires IsStrictOrder(before) && IsSorted(a, before) && IsSorted(b, before)
    requires |a| > 0 && |b| > 0 && Comparable(a, before) && multiset(a) == multiset(b)
    ensures a[|a| - 1] == b[|b| - 1]
  {
    var x, y := a[|a| - 1], b[|b| - 1];
    assert x in multiset(a) && y in multiset(b);
    assert x in multiset(b) && y in multiset(a);
    LastIsGreatest(a, before, y);
    LastIsGreatest(b, before, x);
  }

  lemma {:induction false} DistinctIsItsSet<T>(s: seq<T>)
    requires Distinct(s)
    ensures multiset(s) == multiset(set x | x in s)
  {
    if |s| > 0 {
      var front, x := s[..|s| - 1], s[|s| - 1];
      DistinctIsItsSet(front);
      assert s == front + [x];
      assert (set y | y in s) == (set y | y in front) + {x};
      assert x !in front;
    }
  }

  /** Distinct elements in order are fixed by which elements there are. */
  lemma DistinctSortedIsUnique<T(!new)>(a: seq<T>, b: seq<T>, before: (T, T) -> bool)
    requires IsStrictOrder(before) && IsSorted(a, before) && IsSorted(b, before) && Comparable(a, before)
    requires Distinct(a) && Distinct(b) && forall x :: x in a <==> x in b
    ensures a == b
  {
    DistinctIsItsSet(a);
    DistinctIsItsSet(b);
    assert (set x | x in a) == (set x | x in b);
    SortedIsUnique(a, b, before);
  }

  lemma SortedKeepsDistinct<T(!new)>(s: seq<T>, before: (T, T) -> bool)
    requires IsStrictOrder(before) && Distinct(s)
    ensures Distinct(Sorted(s, before)) && forall x :: x in Sorted(s, before) <==> x in s
  {
    SortedSorts(s, before);
    var t := Sorted(s, before);
    DistinctIsItsSet(s);
    forall i, j | 0 <= i < j < |t| ensures t[i] != t[j] {
      TwiceCounts(t, i, j);
      assert multiset(s)[t[i]] <= 1;
    }
    forall x ensures x in t <==> x in s {
      assert x in t <==> x in multiset(t);
      assert x in s <==> x in multiset(s);
    }
  }

  lemma TwiceCounts<T>(s: seq<T>, i: nat, j: nat)
    requires i < j < |s| 
    ensures s[i] == s[j] ==> multiset(s)[s[i]] >= 2
  {
    assert s == s[..j] + s[j..];
    assert s[i] in s[..j] && s[j] in s[j..];
    assert multiset(s) == multiset(s[..j]) + multiset(s[j..]);
  }

  /** The order of strings, and any order by a string key. */
  lemma BelowIsAnOrder()
    ensures IsStrictOrder(Below) && IsTotal(Below)
  {
    hide Below;
    forall a, b, c
      ensures !Below(a, a)
      ensures a == b || Below(a, b) || Below(b, a)
      ensures Below(a, b) && Below(b, c) ==> Below(a, c)
      ensures Below(a, c) ==> Below(a, b) || Below(b, c)
    {
      BelowIsLinear(a, b, c);
    }
  }

  lemma BelowIsLinear(a: string, b: string, c: string)
    ensures !Below(a, a)
    ensures a == b || Below(a, b) || Below(b, a)
    ensures Below(a, b) && Below(b, c) ==> Below(a, c)
    ensures Below(a, c) ==> Below(a, b) || Below(b, c)
  {
    hide Below;
    BelowIsIrreflexive(a);
    BelowIsTotal(a, b);
    if Below(a, b) && Below(b, c) { BelowIsTransitive(a, b, c); }
    if Below(b, a) && Below(a, c) { BelowIsTransitive(b, a, c); }
  }
}
