/** Keyset pagination over the task table: one page per call, continued from a cursor that
    names the last row returned. */
module Paging {
  import opened Common
  import opened Sorting
  import opened Calendar
  import opened CursorCodec
  import Keyset
  import opened TaskStatus

  /** A creation time as a timestamptz column returns it: in UTC. */
  type Instant = t: Timestamp | Valid(t) && t.offset == Some(0)
    witness Timestamp(1, 1, 1, 0, 0, 0, 0, Some(0))

  datatype Task = Task(id: Uuid, createdAt: Instant, user: nat, deleted: bool, status: Status,
                       language: string, goal: string)

  type Datetime = t: Timestamp | Valid(t)
    witness Timestamp(1, 1, 1, 0, 0, 0, 0, None)

  /** The filters of list_tasks; full-text search is an arbitrary predicate on the goal. `zone` is
      the offset in microseconds that the server takes a naive datetime to have. */
  datatype Query = Query(user: Option<nat>, isAdmin: bool, includeDeleted: bool,
                         statuses: Option<seq<Status>>, language: Option<string>,
                         createdAfter: Option<Datetime>, createdBefore: Option<Datetime>,
                         zone: Timestamp -> int,
                         search: Option<string -> bool>)

  // ---- order on keys ----

  /** The instant of a row, which has an offset. */
  function Created(r: Task): int { Moment(t => 0, r.createdAt) }

  datatype Key = Key(moment: int, id: Uuid)

  function KeyOf(r: Task): Key { Key(Created(r), r.id) }

  predicate Older(a: Key, b: Key) {
    a.moment < b.moment || (a.moment == b.moment && a.id < b.id)
  }

  const BY_KEY: Keyset.Order<Task, Key> := Keyset.Order(KeyOf, Older)

  /** The primary key. */
  ghost predicate UniqueIds(table: seq<Task>) {
    forall i, j | 0 <= i < j < |table| :: table[i].id != table[j].id
  }

  lemma UniqueIdsOrder(table: seq<Task>)
    requires UniqueIds(table)
    ensures Keyset.Good(table, BY_KEY)
  {
    hide Moment;
    assert StrictOrder(Older);
    forall i, j | 0 <= i < j < |table|
      ensures Older(KeyOf(table[i]), KeyOf(table[j])) || Older(KeyOf(table[j]), KeyOf(table[i]))
    {
    }
  }

  // ---- the query ----

  /** An empty list of statuses and an empty language are no filter at all. */
  predicate MatchesFields(q: Query, r: Task) {
    && (!q.isAdmin && q.user.Some? ==> r.user == q.user.value)
    && (!q.includeDeleted ==> !r.deleted)
    && (q.statuses.Some? && q.statuses.value != [] ==> r.status in q.statuses.value)
    && (q.language.Some? && q.language.value != "" ==> r.language == q.language.value)
  }

  predicate MatchesRange(q: Query, r: Task) {
    && (q.createdAfter.Some? ==> Moment(q.zone, q.createdAfter.value) <= Created(r))
    && (q.createdBefore.Some? ==> Created(r) <= Moment(q.zone, q.createdBefore.value))
    && (q.search.Some? ==> q.search.value(r.goal))
  }

  predicate Matches(q: Query, r: Task) { MatchesFields(q, r) && MatchesRange(q, r) }

  predicate Past(after: Option<Key>, r: Task) {
    after.Some? ==> Older(KeyOf(r), after.value)
  }

  function Matching(q: Query): Task -> bool { r => Matches(q, r) }

  /** Everything the query would return from the cursor on if it had no LIMIT. */
  function Select(table: seq<Task>, q: Query, after: Option<Key>): seq<Task> {
    Keyset.Select(table, Matching(q), BY_KEY, after)
  }

  /** The empty string means no cursor. */
  function CursorKey(zone: Timestamp -> int, after: Option<string>): Result<Option<Key>> {
    if after.None? || after.value == "" then Ok(None)
    else
      match DecodeCursor(after.value)
      case Malformed => Malformed
      case Ok((t, id)) => Ok(Some(Key(Moment(zone, t), id)))
  }

  datatype Page = Page(rows: seq<Task>, next: Option<string>)

  function CursorFor(r: Task): string { EncodeCursor(r.createdAt, r.id) }

  function FirstPage(selected: seq<Task>, limit: nat): Page
    requires limit >= 1
  {
    if |selected| > limit then Page(selected[..limit], Some(CursorFor(selected[limit - 1])))
    else Page(selected, None)
  }

  /** What one call returns: the first `limit` selected rows, and a cursor when there are more. */
  function PageOf(table: seq<Task>, q: Query, after: Option<Key>, limit: nat): Page
    requires limit >= 1
  {
    FirstPage(Select(table, q, after), limit)
  }

  function Fetch(table: seq<Task>, q: Query, after: Option<string>, limit: nat): Result<Page>
    requires limit >= 1
  {
    match CursorKey(q.zone, after)
    case Malformed => Malformed
    case Ok(key) => Ok(PageOf(table, q, key, limit))
  }

  predicate All(conditions: seq<Task -> bool>, r: Task) {
    forall i | 0 <= i < |conditions| :: conditions[i](r)
  }

  lemma AllAppend(conditions: seq<Task -> bool>, c: Task -> bool)
    ensures forall r :: All(conditions + [c], r) <==> All(conditions, r) && c(r)
  {
    forall r ensures All(conditions + [c], r) <==> All(conditions, r) && c(r) {
      var longer := conditions + [c];
      assert longer[|conditions|] == c;
      assert forall i | 0 <= i < |conditions| :: longer[i] == conditions[i];
    }
  }

  /** SELECT ... WHERE all conditions ORDER BY. */
  function Execute(table: seq<Task>, conditions: seq<Task -> bool>): seq<Task> {
    Sort(Filter(table, r => All(conditions, r)), Keyset.Descending(BY_KEY))
  }

  lemma ExecuteSelects(table: seq<Task>, q: Query, key: Option<Key>, conditions: seq<Task -> bool>)
    requires forall r :: All(conditions, r) <==> Matches(q, r) && Past(key, r)
    ensures Execute(table, conditions) == Select(table, q, key)
  {
    FilterSame(table, r => All(conditions, r), Keyset.Beyond(BY_KEY, Matching(q), key));
  }

  method FieldConditions(q: Query) returns (conditions: seq<Task -> bool>)
    ensures forall r :: All(conditions, r) <==>
              && (q.isAdmin || q.user.None? || r.user == q.user.value)
              && (q.includeDeleted || !r.deleted)
              && (q.statuses.None? || q.statuses.value == [] || r.status in q.statuses.value)
              && (q.language.None? || q.language.value == "" || r.language == q.language.value)
  {
    conditions := [];
    assert forall r :: All(conditions, r);
    hide All;
    if !q.isAdmin && q.user.Some? {
      conditions := Appended(conditions, (r: Task) => r.user == q.user.value);
    }
    if !q.includeDeleted {
      conditions := Appended(conditions, (r: Task) => !r.deleted);
    }
    if q.statuses.Some? && q.statuses.value != [] {
      conditions := Appended(conditions, (r: Task) => r.status in q.statuses.value);
    }
    if q.language.Some? && q.language.value != "" {
      conditions := Appended(conditions, (r: Task) => r.language == q.language.value);
    }
  }

  method RangeConditions(q: Query, key: Option<Key>, conditions0: seq<Task -> bool>)
    returns (conditions: seq<Task -> bool>)
    ensures forall r :: All(conditions, r) <==>
              && All(conditions0, r)
              && (q.createdAfter.None? || Moment(q.zone, q.createdAfter.value) <= Created(r))
              && (q.createdBefore.None? || Created(r) <= Moment(q.zone, q.createdBefore.value))
              && (q.search.None? || q.search.value(r.goal))
              && (key.None? || Created(r) < key.value.moment || (Created(r) == key.value.moment && r.id < key.value.id))
  {
    hide All, Moment;
    conditions := conditions0;
    if q.createdAfter.Some? {
      var bound := Moment(q.zone, q.createdAfter.value);
      conditions := Appended(conditions, (r: Task) => bound <= Created(r));
    }
    if q.createdBefore.Some? {
      var bound := Moment(q.zone, q.createdBefore.value);
      conditions := Appended(conditions, (r: Task) => Created(r) <= bound);
    }
    if q.search.Some? {
      conditions := Appended(conditions, (r: Task) => q.search.value(r.goal));
    }
    if key.Some? {
      conditions := Appended(conditions, (r: Task) => Older(KeyOf(r), key.value));
    }
  }

  /** list_tasks as it is written: conditions collected one by one, LIMIT limit + 1, and the
      extra row cut off again. */
  method ListTasks(table: seq<Task>, q: Query, after: Option<string>, limit: nat)
    returns (r: Result<Page>)
    requires limit >= 1
    ensures r == Fetch(table, q, after, limit)
  {
    hide Moment, Created, Execute, Select, FirstPage, CursorKey;
    var key := CursorKey(q.zone, after);
    if key.Malformed? {
      return Malformed;
    }
    var conditions := FieldConditions(q);
    conditions := RangeConditions(q, key.value, conditions);
    var selected := Execute(table, conditions);
    ExecuteSelects(table, q, key.value, conditions);
    var page := Truncate(selected, limit);
    return Ok(page);
  }

  method Truncate(selected: seq<Task>, limit: nat) returns (page: Page)
    requires limit >= 1
    ensures page == FirstPage(selected, limit)
  {
    hide CursorFor;
    var rows := selected[..Min(limit + 1, |selected|)];
    var next: Option<string> := None;
    if |rows| > limit {
      rows := rows[..limit];
      next := Some(CursorFor(Last(rows)));
    }
    page := Page(rows, next);
  }

  method Appended(conditions: seq<Task -> bool>, c: Task -> bool) returns (longer: seq<Task -> bool>)
    ensures longer == conditions + [c]
    ensures forall r :: All(longer, r) <==> All(conditions, r) && c(r)
  {
    AllAppend(conditions, c);
    longer := conditions + [c];
  }

  // ---- sessions ----

  lemma MomentOfRow(zone: Timestamp -> int, r: Task)
    ensures Moment(zone, r.createdAt) == Created(r)
  {
  }

  lemma CursorKeyOfRow(zone: Timestamp -> int, r: Task)
    ensures CursorKey(zone, Some(CursorFor(r))) == Ok(Some(KeyOf(r)))
  {
    CursorRoundTrip(r.createdAt, r.id);
    MomentOfRow(zone, r);
    hide DecodeCursor, EncodeCursor, Moment, Created;
  }

  function PageRows(pages: seq<Page>): seq<seq<Task>> {
    seq(|pages|, i requires 0 <= i < |pages| => pages[i].rows)
  }

  /** A client that passes each next cursor back; tables[i] is the table at the i-th fetch. */
  ghost predicate Session(tables: seq<seq<Task>>, q: Query, limit: nat, pages: seq<Page>) {
    && limit >= 1
    && |tables| == |pages| > 0
    && (forall i | 0 <= i < |pages| :: FetchedAt(tables, q, limit, pages, i))
    && (forall i | 0 <= i < |pages| - 1 :: pages[i].next.Some?)
  }

  ghost predicate FetchedAt(tables: seq<seq<Task>>, q: Query, limit: nat, pages: seq<Page>, i: nat)
    requires limit >= 1 && i < |tables| == |pages|
  {
    Fetch(tables[i], q, if i == 0 then None else pages[i - 1].next, limit) == Ok(pages[i])
  }

  lemma PageShape(table: seq<Task>, q: Query, key: Option<Key>, limit: nat)
    requires limit >= 1
    ensures var all, page := Select(table, q, key), PageOf(table, q, key, limit);
      && page.rows == Keyset.Take(all, limit)
      && (page.next.Some? <==> |all| > limit)
      && (page.next.Some? ==> |page.rows| == limit && CursorKey(q.zone, page.next) == Ok(Some(KeyOf(Last(page.rows)))))
  {
    hide Select, CursorFor, CursorKey, KeyOf;
    var all := Select(table, q, key);
    if |all| > limit {
      CursorKeyOfRow(q.zone, all[limit - 1]);
    }
  }

  /** Cursor passing is keyset paging: the cursor of a page reads back as the key of its last row. */
  lemma {:induction false} SessionPage(
    tables: seq<seq<Task>>, q: Query, limit: nat, pages: seq<Page>, i: nat)
    requires Session(tables, q, limit, pages) && i < |pages|
    ensures i > 0 ==> |pages[i - 1].rows| == limit
    ensures pages[i] == PageOf(tables[i], q, Keyset.Edge(PageRows(pages), BY_KEY, i), limit)
  {
    hide Select, CursorKey, PageOf, KeyOf;
    assert FetchedAt(tables, q, limit, pages, i);
    if i == 0 {
      assert CursorKey(q.zone, None) == Ok(None) by { NoCursor(q.zone); }
    } else {
      SessionPage(tables, q, limit, pages, i - 1);
      PageShape(tables[i - 1], q, Keyset.Edge(PageRows(pages), BY_KEY, i - 1), limit);
    }
  }

  lemma NoCursor(zone: Timestamp -> int)
    ensures CursorKey(zone, None) == Ok(None)
  {
  }

  lemma SessionIsKeyset(tables: seq<seq<Task>>, q: Query, limit: nat, pages: seq<Page>)
    requires Session(tables, q, limit, pages)
    ensures Keyset.Session(tables, Matching(q), BY_KEY, limit, PageRows(pages))
    ensures Last(pages).next.None? <==>
            |Select(Last(tables), q, Keyset.Edge(PageRows(pages), BY_KEY, |pages| - 1))| <= limit
  {
    hide Keyset.Select, Select, CursorKey, PageOf, KeyOf, FetchedAt, Matching;
    var rows := PageRows(pages);
    forall i | 0 <= i < |pages|
      ensures i > 0 ==> |rows[i - 1]| == limit
      ensures Keyset.IsPage(tables, Matching(q), BY_KEY, limit, rows, i)
      ensures pages[i].next.Some? <==> |Select(tables[i], q, Keyset.Edge(rows, BY_KEY, i))| > limit
    {
      SessionIsPage(tables, q, limit, pages, i);
    }
    hide Keyset.IsPage;
  }

  lemma SessionIsPage(tables: seq<seq<Task>>, q: Query, limit: nat, pages: seq<Page>, i: nat)
    requires Session(tables, q, limit, pages) && i < |pages|
    ensures i > 0 ==> |PageRows(pages)[i - 1]| == limit
    ensures Keyset.IsPage(tables, Matching(q), BY_KEY, limit, PageRows(pages), i)
    ensures pages[i].next.Some? <==> |Select(tables[i], q, Keyset.Edge(PageRows(pages), BY_KEY, i))| > limit
  {
    hide Keyset.Select, CursorKey, PageOf, KeyOf;
    SessionPage(tables, q, limit, pages, i);
    PageShape(tables[i], q, Keyset.Edge(PageRows(pages), BY_KEY, i), limit);
  }

  // ---- a fixed table ----

  /** Row a was created later than row b, or at the same instant and has the higher id. */
  predicate Newer(a: Task, b: Task) {
    Earlier(b.createdAt, a.createdAt) || (b.createdAt == a.createdAt && b.id < a.id)
  }

  lemma NewerIsOlder(a: Task, b: Task)
    ensures Older(KeyOf(b), KeyOf(a)) <==> Newer(a, b)
  {
    MomentOrder(t => 0, b.createdAt, a.createdAt);
    hide Moment, Earlier;
  }

  /** The one big query: exactly the rows that pass every filter, by creation time and id, newest
      first. */
  lemma OneQuery(table: seq<Task>, q: Query)
    requires UniqueIds(table)
    ensures forall i, j | 0 <= i < j < |Select(table, q, None)| ::
              Newer(Select(table, q, None)[i], Select(table, q, None)[j])
    ensures forall r :: r in Select(table, q, None) <==>
              && r in table
              && (q.isAdmin || q.user.None? || r.user == q.user.value)
              && (q.includeDeleted || !r.deleted)
              && (q.statuses.None? || q.statuses.value == [] || r.status in q.statuses.value)
              && (q.language.None? || q.language.value == "" || r.language == q.language.value)
              && (q.createdAfter.None? || Moment(q.zone, q.createdAfter.value) <= Created(r))
              && (q.createdBefore.None? || Created(r) <= Moment(q.zone, q.createdBefore.value))
              && (q.search.None? || q.search.value(r.goal))
  {
    SelectedRows(table, q, None);
    hide Select, Newer, Moment, Created;
  }

  /** A row list_tasks may return: it passes every filter and lies past the cursor. */
  predicate Eligible(q: Query, cursor: Option<(Timestamp, Uuid)>, r: Task)
    requires cursor.Some? ==> Valid(cursor.value.0)
  {
    && (q.isAdmin || q.user.None? || r.user == q.user.value)
    && (q.includeDeleted || !r.deleted)
    && (q.statuses.None? || q.statuses.value == [] || r.status in q.statuses.value)
    && (q.language.None? || q.language.value == "" || r.language == q.language.value)
    && (q.createdAfter.None? || Moment(q.zone, q.createdAfter.value) <= Moment(q.zone, r.createdAt))
    && (q.createdBefore.None? || Moment(q.zone, r.createdAt) <= Moment(q.zone, q.createdBefore.value))
    && (q.search.None? || q.search.value(r.goal))
    && (cursor.None?
        || Moment(q.zone, r.createdAt) < Moment(q.zone, cursor.value.0)
        || (Moment(q.zone, r.createdAt) == Moment(q.zone, cursor.value.0) && r.id < cursor.value.1))
  }

  /** The pair a cursor names, if there is one. */
  function CursorPair(after: Option<string>): Result<Option<(Timestamp, Uuid)>> {
    if after.None? || after.value == "" then Ok(None)
    else
      match DecodeCursor(after.value)
      case Malformed => Malformed
      case Ok(pair) => Ok(Some(pair))
  }

  lemma EligibleIsSelected(q: Query, after: Option<string>, r: Task)
    ensures CursorKey(q.zone, after).Ok? <==> CursorPair(after).Ok?
    ensures CursorPair(after).Ok? ==>
              && (CursorPair(after).value.Some? ==> Valid(CursorPair(after).value.value.0))
              && Eligible(q, CursorPair(after).value, r)
                 == (Matches(q, r) && (CursorKey(q.zone, after).value.Some? ==> Older(KeyOf(r), CursorKey(q.zone, after).value.value)))
  {
    MomentOfRow(q.zone, r);
    hide Moment, DecodeCursor;
  }

  /** One call of list_tasks: up to `limit` eligible rows, newest first; without a next cursor they
      are all the eligible rows, with one there are `limit` of them, every other eligible row is
      older, and the cursor names the last. */
  lemma ListingMeaning(table: seq<Task>, q: Query, after: Option<string>, limit: nat)
    requires UniqueIds(table) && limit >= 1
    ensures Fetch(table, q, after, limit).Ok? <==> CursorPair(after).Ok?
    ensures CursorPair(after).Ok? ==>
              var cursor, page := CursorPair(after).value, Fetch(table, q, after, limit).value;
              && (cursor.Some? ==> Valid(cursor.value.0))
              && |page.rows| <= limit
              && (forall i, j | 0 <= i < j < |page.rows| :: Newer(page.rows[i], page.rows[j]))
              && (forall r | r in page.rows :: r in table && Eligible(q, cursor, r))
              && (page.next.None? ==> forall r | r in table && Eligible(q, cursor, r) :: r in page.rows)
              && (page.next.Some? ==>
                    && |page.rows| == limit
                    && DecodeCursor(page.next.value) == Ok((Last(page.rows).createdAt, Last(page.rows).id))
                    && forall r | r in table && Eligible(q, cursor, r) && r !in page.rows :: Newer(Last(page.rows), r))
  {
    EligibleIsSelected(q, after, AnyTask());
    if CursorPair(after).Ok? {
      var key := CursorKey(q.zone, after).value;
      SelectedRows(table, q, key);
      forall r ensures Eligible(q, CursorPair(after).value, r) <==> Matches(q, r) && (key.Some? ==> Older(KeyOf(r), key.value)) {
        EligibleIsSelected(q, after, r);
      }
      hide Select, Eligible, Matches, Newer, Older, KeyOf, CursorKey, CursorPair, DecodeCursor, Moment;
      PageMeaning(Select(table, q, key), limit);
    }
  }

  function AnyTask(): Task {
    Task(0, Timestamp(1, 1, 1, 0, 0, 0, 0, Some(0)), 0, false, Submitted, "", "")
  }

  /** The first page of rows that stand newest first. */
  lemma PageMeaning(all: seq<Task>, limit: nat)
    requires limit >= 1 && forall i, j | 0 <= i < j < |all| :: Newer(all[i], all[j])
    ensures var page := FirstPage(all, limit);
      && |page.rows| <= limit
      && (forall i, j | 0 <= i < j < |page.rows| :: Newer(page.rows[i], page.rows[j]))
      && (forall r | r in page.rows :: r in all)
      && (page.next.None? ==> page.rows == all)
      && (page.next.Some? ==>
            && |page.rows| == limit
            && DecodeCursor(page.next.value) == Ok((Last(page.rows).createdAt, Last(page.rows).id))
            && forall r | r in all && r !in page.rows :: Newer(Last(page.rows), r))
  {
    if |all| > limit {
      CursorRoundTrip(all[limit - 1].createdAt, all[limit - 1].id);
      hide Newer, DecodeCursor, EncodeCursor;
      var page := FirstPage(all, limit);
      forall x | 0 <= x < limit ensures all[x] in page.rows {
        assert page.rows[x] == all[x];
      }
      forall r | r in all && r !in page.rows ensures Newer(Last(page.rows), r) {
        var k :| 0 <= k < |all| && all[k] == r;
      }
    }
  }

  /** What is selected from a cursor on. */
  lemma SelectedRows(table: seq<Task>, q: Query, after: Option<Key>)
    requires UniqueIds(table)
    ensures forall i, j | 0 <= i < j < |Select(table, q, after)| ::
              Newer(Select(table, q, after)[i], Select(table, q, after)[j])
    ensures forall r :: r in Select(table, q, after) <==>
              r in table && Matches(q, r) && (after.Some? ==> Older(KeyOf(r), after.value))
  {
    hide KeyOf, Older, Newer, Matches;
    UniqueIdsOrder(table);
    Keyset.SelectMeaning(table, Matching(q), BY_KEY, after);
    var all := Select(table, q, after);
    forall i, j | 0 <= i < j < |all| ensures Newer(all[i], all[j]) {
      assert Keyset.Descending(BY_KEY)(all[i], all[j]);
      NewerIsOlder(all[i], all[j]);
    }
  }

  /** On an unchanging table the i-th page is rows i * limit to (i + 1) * limit of the one big
      query. There is another page only while rows remain, and the session is finished exactly
      when all are covered, so it takes max(1, ceil(n / limit)) pages. */
  lemma PagesEqualOneQuery(table: seq<Task>, tables: seq<seq<Task>>, q: Query, limit: nat, pages: seq<Page>)
    requires UniqueIds(table) && Session(tables, q, limit, pages)
    requires forall i | 0 <= i < |tables| :: tables[i] == table
    ensures var all := Select(table, q, None);
      && (forall i | 0 <= i < |pages| ::
            i * limit <= |all| && pages[i].rows == Keyset.Take(all[i * limit..], limit))
      && (|pages| > 1 ==> (|pages| - 1) * limit < |all|)
      && (Last(pages).next.None? <==> |all| <= |pages| * limit)
  {
    hide Session, Select, KeyOf;
    SessionSize(tables, q, limit, pages);
    forall i | 0 <= i < |pages|
      ensures i * limit <= |Select(table, q, None)|
      ensures pages[i].rows == Keyset.Take(Select(table, q, None)[i * limit..], limit)
    {
      SliceAt(table, tables, q, limit, pages, i);
    }
    SliceAt(table, tables, q, limit, pages, |pages| - 1);
    assert |pages| * limit == (|pages| - 1) * limit + limit;
  }

  lemma SliceAt(table: seq<Task>, tables: seq<seq<Task>>, q: Query, limit: nat, pages: seq<Page>, i: nat)
    requires UniqueIds(table) && Session(tables, q, limit, pages) && i < |pages|
    requires forall j | 0 <= j < |tables| :: tables[j] == table
    ensures var all := Select(table, q, None);
      && i * limit <= |all| && (i > 0 ==> i * limit < |all|)
      && pages[i].rows == Keyset.Take(all[i * limit..], limit)
      && (i == |pages| - 1 ==> (pages[i].next.None? <==> |all| <= i * limit + limit))
  {
    hide Keyset.Select, Keyset.Session, Keyset.Good, KeyOf, Matching, UniqueIds;
    SessionIsKeyset(tables, q, limit, pages);
    UniqueIdsOrder(table);
    Keyset.FixedTableSlices(table, tables, Matching(q), BY_KEY, limit, PageRows(pages), i);
  }

  lemma SessionSize(tables: seq<seq<Task>>, q: Query, limit: nat, pages: seq<Page>)
    requires Session(tables, q, limit, pages)
    ensures limit >= 1 && |tables| == |pages| > 0
  {
  }

  /** The rows of the pages one after the other. */
  function Joined(pages: seq<Page>): seq<Task> {
    if pages == [] then [] else Joined(Front(pages)) + Last(pages).rows
  }

  ghost predicate IsSlice(all: seq<Task>, limit: nat, rows: seq<Task>, i: nat) {
    i * limit <= |all| && rows == Keyset.Take(all[i * limit..], limit)
  }

  lemma NextSlice(all: seq<Task>, limit: nat, rows: seq<Task>, i: nat)
    requires IsSlice(all, limit, rows, i)
    ensures all[..Min(i * limit, |all|)] + rows == all[..Min((i + 1) * limit, |all|)]
  {
    var start := i * limit;
    assert (i + 1) * limit == start + limit;
    assert all[..start] + Keyset.Take(all[start..], limit) == all[..Min(start + limit, |all|)];
  }

  lemma {:induction false} JoinedSlices(all: seq<Task>, limit: nat, pages: seq<Page>)
    requires forall i | 0 <= i < |pages| :: IsSlice(all, limit, pages[i].rows, i)
    ensures Joined(pages) == all[..Min(|pages| * limit, |all|)]
  {
    hide IsSlice;
    if pages == [] {
      assert |pages| * limit == 0;
    } else {
      JoinedSlices(all, limit, Front(pages));
      NextSlice(all, limit, Last(pages).rows, |pages| - 1);
    }
  }

  lemma PageCount(n: nat, limit: nat, count: nat)
    requires limit >= 1 && count >= 1 && (count > 1 ==> (count - 1) * limit < n) && n <= count * limit
    ensures count == Max(1, (n + limit - 1) / limit)
  {
    if n > 0 {
      var q, spare := (n + limit - 1) / limit, count * limit - n;
      assert (count - 1) * limit == count * limit - limit;
      assert n + limit - 1 == count * limit + (limit - 1 - spare);
      QuotientIs(n + limit - 1, limit, count, limit - 1 - spare);
    } else {
      assert count > 1 ==> (count - 1) * limit >= 0;
      QuotientIs(limit - 1, limit, 0, limit - 1);
    }
  }

  lemma QuotientIs(n: nat, d: nat, q: nat, r: nat)
    requires d >= 1 && n == q * d + r && r < d
    ensures n / d == q
  {
    var p := n / d;
    assert n == p * d + n % d;
    Multiples(p, q, d);
    Multiples(q, p, d);
  }

  lemma {:induction false} Multiples(a: nat, b: nat, d: nat)
    ensures a < b ==> a * d + d <= b * d
  {
    if a < b {
      assert b * d == (b - 1) * d + d;
      Multiples(a, b - 1, d);
    }
  }

  /** Following cursors until there is none takes max(1, ceil(n / limit)) pages, of which all but
      the last are full, and hands over exactly the rows of the one big query, in its order. */
  lemma FollowingCursors(table: seq<Task>, tables: seq<seq<Task>>, q: Query, limit: nat, pages: seq<Page>)
    requires UniqueIds(table) && Session(tables, q, limit, pages) && Last(pages).next.None?
    requires forall i | 0 <= i < |tables| :: tables[i] == table
    ensures var all := Select(table, q, None);
      && Joined(pages) == all
      && |pages| == Max(1, (|all| + limit - 1) / limit)
      && forall i | 0 <= i < |pages| - 1 :: |pages[i].rows| == limit
  {
    hide Select, Matching, Joined, UniqueIds, FetchedAt;
    var all := Select(table, q, None);
    PagesEqualOneQuery(table, tables, q, limit, pages);
    SessionSize(tables, q, limit, pages);
    forall i | 0 <= i < |pages| ensures IsSlice(all, limit, pages[i].rows, i) {
    }
    JoinedSlices(all, limit, pages);
    assert all[..|all|] == all;
    PageCount(|all|, limit, |pages|);
    forall i | 0 <= i < |pages| - 1 ensures |pages[i].rows| == limit {
      SessionPage(tables, q, limit, pages, i + 1);
    }
  }

  // ---- a table that changes between fetches ----

  /** Rows may come, go and change, but a row keeps its creation time. */
  ghost predicate StableKeys(tables: seq<seq<Task>>) {
    && (forall i | 0 <= i < |tables| :: UniqueIds(tables[i]))
    && (forall i, j, a, b | 0 <= i < |tables| && 0 <= j < |tables| && a in tables[i] && b in tables[j]
          && a.id == b.id :: a.createdAt == b.createdAt)
  }

  lemma StableTables(tables: seq<seq<Task>>)
    requires StableKeys(tables)
    ensures Keyset.AllGood(tables, BY_KEY)
  {
    forall i | 0 <= i < |tables| ensures Keyset.Good(tables[i], BY_KEY) {
      UniqueIdsOrder(tables[i]);
    }
  }

  /** No row is returned twice, whatever happens to the table between the fetches. */
  lemma NoRowTwice(tables: seq<seq<Task>>, q: Query, limit: nat, pages: seq<Page>,
                   i: nat, x: nat, j: nat, y: nat)
    requires Session(tables, q, limit, pages) && StableKeys(tables)
    requires i < |pages| && x < |pages[i].rows| && j < |pages| && y < |pages[j].rows|
    requires pages[i].rows[x].id == pages[j].rows[y].id
    ensures i == j && x == y
  {
    hide Keyset.Session, Keyset.AllGood, Matching;
    var rows := PageRows(pages);
    SessionIsKeyset(tables, q, limit, pages);
    StableTables(tables);
    Keyset.PageMeaning(tables, Matching(q), BY_KEY, limit, rows, i);
    Keyset.PageMeaning(tables, Matching(q), BY_KEY, limit, rows, j);
    assert rows[i][x] in rows[i] && rows[j][y] in rows[j];
    Keyset.NoKeyTwice(tables, Matching(q), BY_KEY, limit, rows, i, x, j, y);
  }

  lemma MatchingRowReturned(tables: seq<seq<Task>>, q: Query, limit: nat, pages: seq<Page>, seen: seq<Task>)
    returns (i: nat, x: nat)
    requires Session(tables, q, limit, pages) && StableKeys(tables) && Last(pages).next.None?
    requires |seen| == |tables|
    requires forall j | 0 <= j < |tables| ::
               seen[j] in tables[j] && Matches(q, seen[j]) && seen[j].id == seen[0].id
    ensures i < |pages| && x < |pages[i].rows| && pages[i].rows[x] == seen[i]
  {
    hide Keyset.Session, Keyset.AllGood, Matches, Keyset.Select, Moment;
    SessionIsKeyset(tables, q, limit, pages);
    StableTables(tables);
    forall j | 0 <= j < |seen| ensures KeyOf(seen[j]) == KeyOf(seen[0]) {
      assert seen[j] in tables[j] && seen[0] in tables[0];
    }
    i, x := Keyset.PersistentRowReturned(tables, Matching(q), BY_KEY, limit, PageRows(pages), seen, KeyOf(seen[0]));
  }

  /** A row that matches the filters at every fetch - seen[j] is how it stands at the j-th - is
      returned exactly once by a session that runs until there is no next cursor. */
  lemma MatchingRowOnce(tables: seq<seq<Task>>, q: Query, limit: nat, pages: seq<Page>, seen: seq<Task>)
    requires Session(tables, q, limit, pages) && StableKeys(tables) && Last(pages).next.None?
    requires |seen| == |tables|
    requires forall j | 0 <= j < |tables| ::
               seen[j] in tables[j] && Matches(q, seen[j]) && seen[j].id == seen[0].id
    ensures exists i, x | 0 <= i < |pages| && 0 <= x < |pages[i].rows| ::
              && pages[i].rows[x] == seen[i]
              && forall j, y | 0 <= j < |pages| && 0 <= y < |pages[j].rows|
                   && pages[j].rows[y].id == seen[0].id :: j == i && y == x
  {
    hide Session, StableKeys, Matches;
    SessionSize(tables, q, limit, pages);
    var i, x := MatchingRowReturned(tables, q, limit, pages, seen);
    forall j, y | 0 <= j < |pages| && 0 <= y < |pages[j].rows| && pages[j].rows[y].id == seen[0].id
      ensures j == i && y == x
    {
      NoRowTwice(tables, q, limit, pages, i, x, j, y);
    }
  }
}
