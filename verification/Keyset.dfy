/** Keyset pagination over any kind of row. A page is the first `limit` rows that are kept and
    lie strictly below the key of the last row of the page before it, highest key first. */
module Keyset {
  import opened Common
  import opened Sorting

  datatype Order<!T, !K> = Order(key: T -> K, below: (K, K) -> bool)

  /** ORDER BY key DESC. */
  function Descending<T, K>(o: Order<T, K>): (T, T) -> bool {
    (a, b) => o.below(o.key(b), o.key(a))
  }

  function Beyond<T, K>(o: Order<T, K>, keep: T -> bool, after: Option<K>): T -> bool {
    r => keep(r) && (after.Some? ==> o.below(o.key(r), after.value))
  }

  /** The kept rows below the key `after`, highest key first. */
  function Select<T, K>(table: seq<T>, keep: T -> bool, o: Order<T, K>, after: Option<K>): seq<T> {
    Sort(Filter(table, Beyond(o, keep, after)), Descending(o))
  }

  /** Distinct rows have comparable keys, and keys are strictly ordered. */
  ghost predicate Good<T(!new), K(!new)>(table: seq<T>, o: Order<T, K>) {
    Comparable(table, Descending(o)) && StrictOrder(o.below)
  }

  lemma DescendingIsStrict<T(!new), K(!new)>(o: Order<T, K>)
    requires StrictOrder(o.below)
    ensures StrictOrder(Descending(o))
  {
  }

  lemma SelectMeaning<T(!new), K(!new)>(table: seq<T>, keep: T -> bool, o: Order<T, K>, after: Option<K>)
    requires Good(table, o)
    ensures Ordered(Select(table, keep, o, after), Descending(o))
    ensures forall r :: r in Select(table, keep, o, after)
                   <==> r in table && keep(r) && (after.Some? ==> o.below(o.key(r), after.value))
  {
    var kept := Beyond(o, keep, after);
    DescendingIsStrict(o);
    FilterComparable(table, Descending(o), kept);
    FilterKeeps(table, kept);
    SortSorts(Filter(table, kept), Descending(o));
  }

  /** Selecting below the k-th row's key is dropping the first k rows. */
  lemma SelectFromRow<T(!new), K(!new)>(
    table: seq<T>, keep: T -> bool, o: Order<T, K>, after: Option<K>, k: nat)
    requires Good(table, o) && 0 < k <= |Select(table, keep, o, after)|
    ensures Select(table, keep, o, Some(o.key(Select(table, keep, o, after)[k - 1])))
         == Select(table, keep, o, after)[k..]
  {
    var all := Select(table, keep, o, after);
    var edge := o.key(all[k - 1]);
    var further := r => o.below(o.key(r), edge);
    SelectMeaning(table, keep, o, after);
    assert all[k - 1] in all;
    DescendingIsStrict(o);
    FilterComparable(table, Descending(o), Beyond(o, keep, after));
    FilterSort(Filter(table, Beyond(o, keep, after)), Descending(o), further);
    FilterFilter(table, Beyond(o, keep, after), further, Beyond(o, keep, Some(edge)));
    FilterSuffix(all, k, further);
  }

  function Take<T>(all: seq<T>, limit: nat): seq<T> {
    all[..Min(limit, |all|)]
  }

  // ---- sessions ----

  /** The key the i-th fetch continues from. */
  function Edge<T, K>(pages: seq<seq<T>>, o: Order<T, K>, i: nat): Option<K>
    requires i <= |pages|
    requires i > 0 ==> pages[i - 1] != []
  {
    if i == 0 then None else Some(o.key(Last(pages[i - 1])))
  }

  /** tables[i] is the table at the i-th fetch; every page but the last was cut at the limit. */
  ghost predicate Session<T, K>(tables: seq<seq<T>>, keep: T -> bool, o: Order<T, K>,
                                limit: nat, pages: seq<seq<T>>) {
    && limit >= 1
    && |tables| == |pages| > 0
    && (forall i | 0 <= i < |pages| - 1 :: |pages[i]| == limit)
    && (forall i | 0 <= i < |pages| :: IsPage(tables, keep, o, limit, pages, i))
  }

  ghost predicate IsPage<T, K>(tables: seq<seq<T>>, keep: T -> bool, o: Order<T, K>,
                               limit: nat, pages: seq<seq<T>>, i: nat)
    requires i < |tables| == |pages|
    requires i > 0 ==> pages[i - 1] != []
  {
    var all := Select(tables[i], keep, o, Edge(pages, o, i));
    pages[i] == Take(all, limit) && (i < |pages| - 1 ==> |all| > limit)
  }

  // ---- a fixed table: the pages are slices of the one big query ----

  lemma {:induction false} FixedTableSlices<T(!new), K(!new)>(
    table: seq<T>, tables: seq<seq<T>>, keep: T -> bool, o: Order<T, K>,
    limit: nat, pages: seq<seq<T>>, i: nat)
    requires Session(tables, keep, o, limit, pages) && Good(table, o)
    requires forall j | 0 <= j < |tables| :: tables[j] == table
    requires i < |pages|
    ensures var all := Select(table, keep, o, None);
      && i * limit <= |all| && (i > 0 ==> i * limit < |all|)
      && Select(table, keep, o, Edge(pages, o, i)) == all[i * limit..]
      && pages[i] == Take(all[i * limit..], limit)
  {
    hide *;
    PageAt(tables, keep, o, limit, pages, i);
    if i > 0 {
      PageAt(tables, keep, o, limit, pages, i - 1);
      FixedTableSlices(table, tables, keep, o, limit, pages, i - 1);
      var start := (i - 1) * limit;
      assert i * limit == start + limit;
      NextSlice(table, keep, o, Edge(pages, o, i - 1), limit, start);
      EdgeOf(pages, o, i);
    } else {
      FirstSlice(table, keep, o, pages);
    }
  }

  lemma FirstSlice<T(!new), K(!new)>(table: seq<T>, keep: T -> bool, o: Order<T, K>, pages: seq<seq<T>>)
    ensures var all := Select(table, keep, o, None);
      Select(table, keep, o, Edge(pages, o, 0)) == all[0..] == all
  {
    hide Select;
  }

  lemma EdgeOf<T(!new), K(!new)>(pages: seq<seq<T>>, o: Order<T, K>, i: nat)
    requires 0 < i <= |pages| && pages[i - 1] != []
    ensures Edge(pages, o, i) == Some(o.key(Last(pages[i - 1])))
  {
  }

  lemma PageAt<T(!new), K(!new)>(tables: seq<seq<T>>, keep: T -> bool, o: Order<T, K>,
                                 limit: nat, pages: seq<seq<T>>, i: nat)
    requires Session(tables, keep, o, limit, pages) && i < |pages|
    ensures limit >= 1 && |tables| == |pages| && (i > 0 ==> |pages[i - 1]| == limit)
    ensures var all := Select(tables[i], keep, o, Edge(pages, o, i));
      && pages[i] == Take(all, limit)
      && (i < |pages| - 1 ==> |all| > limit && |pages[i]| == limit && Last(pages[i]) == all[limit - 1])
  {
    hide Select, Edge;
    assert IsPage(tables, keep, o, limit, pages, i);
  }

  /** The rows from `start` on; below the last row of their first page come the rows behind it. */
  lemma NextSlice<T(!new), K(!new)>(
    table: seq<T>, keep: T -> bool, o: Order<T, K>, after: Option<K>, limit: nat, start: nat)
    requires Good(table, o) && limit >= 1
    requires start <= |Select(table, keep, o, None)|
    requires Select(table, keep, o, after) == Select(table, keep, o, None)[start..]
    requires |Select(table, keep, o, after)| > limit
    ensures var all := Select(table, keep, o, None);
      && start + limit < |all|
      && Select(table, keep, o, Some(o.key(Select(table, keep, o, after)[limit - 1]))) == all[start + limit..]
  {
    hide Select, Good;
    SelectFromRow(table, keep, o, after, limit);
    var all := Select(table, keep, o, None);
    assert all[start..][limit..] == all[start + limit..];
  }

  // ---- a table that changes between fetches ----

  ghost predicate AllGood<T(!new), K(!new)>(tables: seq<seq<T>>, o: Order<T, K>) {
    forall i | 0 <= i < |tables| :: Good(tables[i], o)
  }

  lemma PageMeaning<T(!new), K(!new)>(tables: seq<seq<T>>, keep: T -> bool, o: Order<T, K>,
                                      limit: nat, pages: seq<seq<T>>, i: nat)
    requires Session(tables, keep, o, limit, pages) && AllGood(tables, o) && i < |pages|
    ensures Ordered(pages[i], Descending(o))
    ensures forall r | r in pages[i] ::
              r in tables[i] && keep(r) && (i > 0 ==> o.below(o.key(r), o.key(Last(pages[i - 1]))))
  {
    hide Select, Good;
    assert IsPage(tables, keep, o, limit, pages, i);
    SelectMeaning(tables[i], keep, o, Edge(pages, o, i));
    var all := Select(tables[i], keep, o, Edge(pages, o, i));
    assert pages[i] == all[..|pages[i]|];
    assert forall x | 0 <= x < |pages[i]| :: pages[i][x] == all[x] && all[x] in all;
  }

  /** Every key on a later page is below every key on an earlier one. */
  lemma {:induction false} LaterIsLower<T(!new), K(!new)>(
    tables: seq<seq<T>>, keep: T -> bool, o: Order<T, K>, limit: nat, pages: seq<seq<T>>,
    i: nat, j: nat, a: T, b: T)
    requires Session(tables, keep, o, limit, pages) && AllGood(tables, o)
    requires i < j < |pages| && a in pages[i] && b in pages[j]
    ensures o.below(o.key(b), o.key(a))
    decreases j
  {
    hide IsPage;
    PageMeaning(tables, keep, o, limit, pages, j);
    var edge := Last(pages[j - 1]);
    assert edge in pages[j - 1];
    if i < j - 1 {
      LaterIsLower(tables, keep, o, limit, pages, i, j - 1, a, edge);
    } else {
      PageMeaning(tables, keep, o, limit, pages, i);
      assert a == edge || o.below(o.key(edge), o.key(a));
    }
    assert Good(tables[i], o);
  }

  /** No key is returned twice, whatever happens between the fetches. */
  lemma NoKeyTwice<T(!new), K(!new)>(
    tables: seq<seq<T>>, keep: T -> bool, o: Order<T, K>, limit: nat, pages: seq<seq<T>>,
    i: nat, x: nat, j: nat, y: nat)
    requires Session(tables, keep, o, limit, pages) && AllGood(tables, o)
    requires i < |pages| && x < |pages[i]| && j < |pages| && y < |pages[j]|
    requires o.key(pages[i][x]) == o.key(pages[j][y])
    ensures i == j && x == y
  {
    hide IsPage;
    var a, b := pages[i][x], pages[j][y];
    assert Good(tables[i], o);
    if i < j {
      LaterIsLower(tables, keep, o, limit, pages, i, j, a, b);
    } else if j < i {
      LaterIsLower(tables, keep, o, limit, pages, j, i, b, a);
    } else {
      PageMeaning(tables, keep, o, limit, pages, i);
    }
  }

  /** seen[j] is one row, as it stands and is kept at the j-th fetch. */
  ghost predicate Persists<T, K(!new)>(tables: seq<seq<T>>, keep: T -> bool, o: Order<T, K>,
                                       seen: seq<T>, place: K) {
    && |seen| == |tables|
    && (forall j | 0 <= j < |tables| :: seen[j] in tables[j] && keep(seen[j]) && o.key(seen[j]) == place)
  }

  ghost predicate ReturnedBy<T>(pages: seq<seq<T>>, seen: seq<T>, i: nat)
    requires i < |pages| == |seen|
  {
    exists j :: 0 <= j <= i && seen[j] in pages[j]
  }

  /** A selected row is on the page, or the page is cut and the row is below its last row. */
  lemma OnPageOrAhead<T(!new), K(!new)>(table: seq<T>, keep: T -> bool, o: Order<T, K>,
                                        after: Option<K>, limit: nat, r: T)
    requires Good(table, o) && limit >= 1
    requires r in table && keep(r) && (after.Some? ==> o.below(o.key(r), after.value))
    ensures var all := Select(table, keep, o, after);
      r in Take(all, limit) || (|all| > limit && o.below(o.key(r), o.key(Last(Take(all, limit)))))
  {
    hide Select, Good;
    SelectMeaning(table, keep, o, after);
    var all := Select(table, keep, o, after);
    var k :| 0 <= k < |all| && all[k] == r;
    if k < limit {
      assert Take(all, limit)[k] == r;
    } else {
      assert Descending(o)(all[limit - 1], all[k]);
    }
  }

  /** A row not returned by the i-th page is below its last row, and there is a next page. */
  lemma {:induction false} ReturnedOrAhead<T(!new), K(!new)>(
    tables: seq<seq<T>>, keep: T -> bool, o: Order<T, K>, limit: nat, pages: seq<seq<T>>,
    seen: seq<T>, place: K, i: nat)
    requires Session(tables, keep, o, limit, pages) && AllGood(tables, o)
    requires Persists(tables, keep, o, seen, place) && i < |pages|
    ensures ReturnedBy(pages, seen, i)
         || (|Select(tables[i], keep, o, Edge(pages, o, i))| > limit && pages[i] != []
             && o.below(place, o.key(Last(pages[i]))))
  {
    hide Select, Good;
    assert IsPage(tables, keep, o, limit, pages, i);
    if i > 0 {
      ReturnedOrAhead(tables, keep, o, limit, pages, seen, place, i - 1);
    }
    if i == 0 || !ReturnedBy(pages, seen, i - 1) {
      OnPageOrAhead(tables[i], keep, o, Edge(pages, o, i), limit, seen[i]);
    } else {
      assert ReturnedBy(pages, seen, i);
    }
  }

  /** A row kept at every fetch is returned, as it is at that fetch, by a session whose last page
      is not cut. */
  lemma PersistentRowReturned<T(!new), K(!new)>(
    tables: seq<seq<T>>, keep: T -> bool, o: Order<T, K>, limit: nat, pages: seq<seq<T>>,
    seen: seq<T>, place: K) returns (i: nat, x: nat)
    requires Session(tables, keep, o, limit, pages) && AllGood(tables, o)
    requires Persists(tables, keep, o, seen, place)
    requires |Select(Last(tables), keep, o, Edge(pages, o, |pages| - 1))| <= limit
    ensures i < |pages| && x < |pages[i]| && pages[i][x] == seen[i]
  {
    hide Select, Good;
    ReturnedOrAhead(tables, keep, o, limit, pages, seen, place, |pages| - 1);
    i :| 0 <= i < |pages| && seen[i] in pages[i];
    x :| 0 <= x < |pages[i]| && pages[i][x] == seen[i];
  }
}
