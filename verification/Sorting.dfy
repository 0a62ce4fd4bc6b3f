/** The two query clauses the repository relies on: WHERE keeps the rows of a table that
    satisfy a condition, ORDER BY arranges them. A table is a sequence of rows in any
    physical order. */
module Sorting {

  function Filter<T>(s: seq<T>, keep: T -> bool): seq<T> {
    if s == [] then []
    else if keep(s[0]) then [s[0]] + Filter(s[1..], keep)
    else Filter(s[1..], keep)
  }

  lemma {:induction false} FilterKeeps<T(!new)>(s: seq<T>, keep: T -> bool)
    ensures forall x :: x in Filter(s, keep) <==> x in s && keep(x)
  {
    if s != [] {
      FilterKeeps(s[1..], keep);
      assert s == [s[0]] + s[1..];
    }
  }

  ghost predicate Ordered<T>(s: seq<T>, before: (T, T) -> bool) {
    forall i, j | 0 <= i < j < |s| :: before(s[i], s[j])
  }

  /** Any two rows of `s` are comparable, as rows with distinct keys are. */
  ghost predicate Comparable<T>(s: seq<T>, before: (T, T) -> bool) {
    forall i, j | 0 <= i < j < |s| :: before(s[i], s[j]) || before(s[j], s[i])
  }

  ghost predicate StrictOrder<T(!new)>(before: (T, T) -> bool) {
    && (forall x :: !before(x, x))
    && (forall x, y, z :: before(x, y) && before(y, z) ==> before(x, z))
  }

  function Insert<T>(x: T, s: seq<T>, before: (T, T) -> bool): (r: seq<T>)
    ensures multiset(r) == multiset(s) + multiset{x}
  {
    if s == [] || before(x, s[0]) then [x] + s
    else
      assert s == [s[0]] + s[1..];
      [s[0]] + Insert(x, s[1..], before)
  }

  function Sort<T>(s: seq<T>, before: (T, T) -> bool): (r: seq<T>)
    ensures multiset(r) == multiset(s)
  {
    if s == [] then []
    else
      assert s == [s[0]] + s[1..];
      Insert(s[0], Sort(s[1..], before), before)
  }

  lemma SameElements<T(!new)>(a: seq<T>, b: seq<T>)
    requires multiset(a) == multiset(b)
    ensures forall x :: x in a <==> x in b
  {
    forall x ensures x in a <==> x in b {
      assert x in a <==> x in multiset(a);
    }
  }

  lemma {:induction false} InsertKeepsOrder<T(!new)>(x: T, s: seq<T>, before: (T, T) -> bool)
    requires StrictOrder(before) && Ordered(s, before)
    requires forall y | y in s :: before(x, y) || before(y, x)
    ensures Ordered(Insert(x, s, before), before)
  {
    if s != [] && !before(x, s[0]) {
      var rest := Insert(x, s[1..], before);
      InsertKeepsOrder(x, s[1..], before);
      SameElements(rest, s[1..] + [x]);
      forall j | 0 <= j < |rest| ensures before(s[0], rest[j]) {
        assert rest[j] in rest;
        assert rest[j] in s[1..] + [x];
      }
    }
  }

  /** ORDER BY returns the same rows, in order. */
  lemma {:induction false} SortSorts<T(!new)>(s: seq<T>, before: (T, T) -> bool)
    requires StrictOrder(before) && Comparable(s, before)
    ensures Ordered(Sort(s, before), before)
    ensures forall x :: x in Sort(s, before) <==> x in s
  {
    if s != [] {
      var rest := Sort(s[1..], before);
      SortSorts(s[1..], before);
      forall y | y in rest ensures before(s[0], y) || before(y, s[0]) {
        assert y in s[1..];
        var j :| 0 <= j < |s[1..]| && s[1..][j] == y;
        assert s[j + 1] == y;
      }
      InsertKeepsOrder(s[0], rest, before);
    }
    SameElements(Sort(s, before), s);
  }

  /** A sequence already in order is what ORDER BY returns for it. */
  lemma {:induction false} SortOfOrdered<T(!new)>(s: seq<T>, before: (T, T) -> bool)
    requires Ordered(s, before)
    ensures Sort(s, before) == s
  {
    if s != [] {
      assert Ordered(s[1..], before);
      SortOfOrdered(s[1..], before);
    }
  }

  lemma {:induction false} FilterInsert<T(!new)>(
    x: T, s: seq<T>, before: (T, T) -> bool, keep: T -> bool)
    requires StrictOrder(before) && Ordered(s, before)
    ensures Filter(Insert(x, s, before), keep)
         == if keep(x) then Insert(x, Filter(s, keep), before) else Filter(s, keep)
  {
    if s == [] {
    } else if before(x, s[0]) {
      FilterCons(x, s, keep);
      var kept := Filter(s, keep);
      if kept != [] {
        FilterKeeps(s, keep);
        assert kept[0] in kept;
      }
    } else {
      FilterInsert(x, s[1..], before, keep);
      FilterCons(s[0], Insert(x, s[1..], before), keep);
      if keep(s[0]) {
        var rest := Filter(s[1..], keep);
        assert Filter(s, keep) == [s[0]] + rest;
        assert ([s[0]] + rest)[1..] == rest;
      }
    }
  }

  lemma FilterCons<T>(x: T, s: seq<T>, keep: T -> bool)
    ensures Filter([x] + s, keep) == if keep(x) then [x] + Filter(s, keep) else Filter(s, keep)
  {
    assert ([x] + s)[1..] == s;
  }

  lemma FilterHead<T>(s: seq<T>, keep: T -> bool)
    requires s != []
    ensures Filter(s, keep) == (if keep(s[0]) then [s[0]] else []) + Filter(s[1..], keep)
  {
    assert [] + Filter(s[1..], keep) == Filter(s[1..], keep);
  }

  lemma {:induction false} FilterJoin<T>(a: seq<T>, b: seq<T>, keep: T -> bool)
    ensures Filter(a + b, keep) == Filter(a, keep) + Filter(b, keep)
  {
    if a == [] {
      assert a + b == b;
    } else {
      hide Filter;
      var head := if keep(a[0]) then [a[0]] else [];
      FilterJoin(a[1..], b, keep);
      FilterHead(a, keep);
      FilterHead(a + b, keep);
      assert (a + b)[1..] == a[1..] + b;
      assert Filter(a + b, keep) == head + (Filter(a[1..], keep) + Filter(b, keep));
    }
  }

  /** WHERE and ORDER BY commute. */
  lemma {:induction false} FilterSort<T(!new)>(s: seq<T>, before: (T, T) -> bool, keep: T -> bool)
    requires StrictOrder(before) && Comparable(s, before)
    ensures Sort(Filter(s, keep), before) == Filter(Sort(s, before), keep)
  {
    if s != [] {
      assert Comparable(s[1..], before);
      FilterSort(s[1..], before, keep);
      SortSorts(s[1..], before);
      FilterInsert(s[0], Sort(s[1..], before), before, keep);
      if keep(s[0]) {
        var rest := Filter(s[1..], keep);
        assert Filter(s, keep) == [s[0]] + rest;
        assert ([s[0]] + rest)[1..] == rest;
      } else {
        assert Filter(s, keep) == Filter(s[1..], keep);
      }
    }
  }

  lemma {:induction false} FilterSame<T>(s: seq<T>, keep: T -> bool, same: T -> bool)
    requires forall x | x in s :: keep(x) == same(x)
    ensures Filter(s, keep) == Filter(s, same)
  {
    if s != [] {
      assert s[0] in s;
      FilterSame(s[1..], keep, same);
    }
  }

  /** Filtering twice is filtering by the conjunction. */
  lemma {:induction false} FilterFilter<T(!new)>(s: seq<T>, first: T -> bool, second: T -> bool, both: T -> bool)
    requires forall x | x in s :: both(x) == (first(x) && second(x))
    ensures Filter(Filter(s, first), second) == Filter(s, both)
  {
    if s != [] {
      var x, rest := s[0], s[1..];
      FilterFilter(rest, first, second, both);
      assert s == [x] + rest;
      FilterCons(x, rest, first);
      FilterCons(x, rest, both);
      FilterCons(x, Filter(rest, first), second);
      assert x in s;
    }
  }

  lemma {:induction false} FilterComparable<T(!new)>(s: seq<T>, before: (T, T) -> bool, keep: T -> bool)
    requires Comparable(s, before)
    ensures Comparable(Filter(s, keep), before)
  {
    if s != [] {
      var rest := Filter(s[1..], keep);
      assert Comparable(s[1..], before);
      FilterComparable(s[1..], before, keep);
      FilterKeeps(s[1..], keep);
      forall y | y in rest ensures before(s[0], y) || before(y, s[0]) {
        var j :| 0 <= j < |s[1..]| && s[1..][j] == y;
        assert s[j + 1] == y;
      }
      assert forall j | 0 <= j < |rest| :: rest[j] in rest;
    }
  }

  /** Dropping an initial stretch that fails the condition and keeping the rest. */
  lemma {:induction false} FilterSuffix<T(!new)>(s: seq<T>, k: nat, keep: T -> bool)
    requires k <= |s|
    requires forall i | 0 <= i < k :: !keep(s[i])
    requires forall i | k <= i < |s| :: keep(s[i])
    ensures Filter(s, keep) == s[k..]
  {
    if s != [] {
      if k == 0 {
        FilterSuffix(s[1..], 0, keep);
        assert s == [s[0]] + s[1..];
      } else {
        FilterSuffix(s[1..], k - 1, keep);
        assert s[1..][k - 1..] == s[k..];
      }
    }
  }
}
