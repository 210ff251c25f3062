/** History queries: one page at a time, newest first, for both databases. */
module Pagination {
  import opened Keys
  import opened Pages
  import opened Prelude
  import opened Rows

  /** How a database orders ids: PostgreSQL by value, SQL Server by its own permutation. */
  type IdOrder = Id -> Id

  ghost predicate OrdersIds(order: IdOrder) {
    forall a, b :: order(a) == order(b) ==> a == b
  }

  /** `ORDER BY created_at DESC, id DESC` */
  function NewestFirst(order: IdOrder): Position {
    (k: Key) => -(k.ts * ID_LIMIT + order(k.id))
  }

  lemma NewestFirstInjective(order: IdOrder)
    requires OrdersIds(order)
    ensures Injective(NewestFirst(order))
  {
    forall a, b | NewestFirst(order)(a) == NewestFirst(order)(b) ensures a == b {
      assert order(a.id) == order(b.id);
    }
  }

  datatype Query = Query(
    filter: Filter,
    cursor: Option<Key>,
    offset: Option<int>,
    limit: Option<int>,
    includeTotal: bool)

  datatype Page = Page(entries: seq<Key>, hasMore: bool, nextCursor: Option<Key>, total: Option<nat>)

  datatype QueryError = CursorAndOffset | BadLimit | BadOffset | UnsafeTotal

  const MAX_SAFE_INTEGER: nat := 9_007_199_254_740_991

  function Limit(q: Query): int {
    if q.limit.Some? then q.limit.value else 50
  }

  function Offset(q: Query): int {
    if q.cursor.None? && q.offset.Some? then q.offset.value else 0
  }

  /** PostgreSQL's two cursor conditions: a plain bound for the index and the row comparison. */
  predicate PostgresCursor(c: Key, k: Key) {
    k.ts <= c.ts && Before(k, c)
  }

  /** SQL Server has no row comparison, so it is written out. */
  predicate SqlServerCursor(order: IdOrder, c: Key, k: Key) {
    k.ts < c.ts || (k.ts == c.ts && order(k.id) < order(c.id))
  }

  predicate CursorHolds(dialect: Dialect, order: IdOrder, c: Key, k: Key) {
    if dialect.Postgres? then PostgresCursor(c, k) else SqlServerCursor(order, c, k)
  }

  ghost predicate OrderFits(dialect: Dialect, order: IdOrder) {
    OrdersIds(order) && (dialect.Postgres? ==> forall id :: order(id) == id)
  }

  /** Both forms select the rows that come after the cursor in the page order. */
  lemma CursorConditions(dialect: Dialect, order: IdOrder, c: Key, k: Key)
    requires OrderFits(dialect, order)
    ensures CursorHolds(dialect, order, c, k) <==> NewestFirst(order)(c) < NewestFirst(order)(k)
  {
    assert k.ts < c.ts ==> k.ts * ID_LIMIT + ID_LIMIT <= c.ts * ID_LIMIT;
    assert c.ts < k.ts ==> c.ts * ID_LIMIT + ID_LIMIT <= k.ts * ID_LIMIT;
  }

  // ----- the whole list, and one page of it -----

  ghost function Matching(table: Table, f: Filter): set<Key> {
    set k | k in table && Matches(f, k, table[k])
  }

  ghost function Beyond(pos: Position, r: set<Key>, cursor: Option<Key>): set<Key> {
    set k | k in r && (cursor.Some? ==> pos(cursor.value) < pos(k))
  }

  ghost function Least(pos: Position, r: set<Key>): (k: Key)
    requires r != {}
    ensures k in r && forall j :: j in r ==> pos(k) <= pos(j)
  {
    assert exists k :: k in r && forall j :: j in r ==> pos(k) <= pos(j) by {
      var k := LeastExists(pos, r);
    }
    var k :| k in r && forall j :: j in r ==> pos(k) <= pos(j);
    k
  }

  /** All keys of `r` in order. */
  ghost function Listing(pos: Position, r: set<Key>): (p: seq<Key>)
    requires Injective(pos)
    ensures |p| == |r| && Ascending(pos, p)
    ensures forall k :: k in p <==> k in r
    decreases |r|
  {
    if r == {} then []
    else
      var k := Least(pos, r);
      assert r == (r - {k}) + {k};
      [k] + Listing(pos, r - {k})
  }

  lemma SameKeysSameList(pos: Position, p: seq<Key>, q: seq<Key>, r: set<Key>)
    requires Injective(pos) && Ascending(pos, p) && Ascending(pos, q)
    requires forall k :: k in p <==> k in r
    requires forall k :: k in q <==> k in r
    ensures p == q
  {
    PageUnique(pos, p, q, r, |p| + |q|);
  }

  function Clip(n: int, length: nat): nat {
    if n < 0 then 0 else if n < length then n else length
  }

  /** `LIMIT`ed selection is the front of the whole list. */
  lemma PageIsFront(pos: Position, p: seq<Key>, r: set<Key>, limit: nat)
    requires Injective(pos) && IsPage(pos, p, r, limit)
    ensures p == Listing(pos, r)[..Clip(limit, |r|)]
  {
    var all := Listing(pos, r);
    var bound := if |r| < limit then limit else |r|;
    assert IsPage(pos, all, r, bound);
    PagePrefix(pos, all, r, bound, limit);
    PageUnique(pos, p, all[..Clip(limit, |r|)], r, limit);
  }

  /** The `count` rows of `all` after the first `offset`. */
  function Slice(all: seq<Key>, offset: nat, count: nat): seq<Key> {
    all[Clip(offset, |all|)..Clip(offset + count, |all|)]
  }

  /** What a page shows of the whole list `all`. */
  predicate ShowsOf(all: seq<Key>, offset: nat, limit: nat, page: Page) {
    && page.entries == Slice(all, offset, limit)
    && (page.hasMore <==> |all| > offset + limit)
    && page.nextCursor == if |all| > offset + limit && limit > 0 then Some(all[offset + limit - 1]) else None
  }

  /** What one answered query shows of `r`, the matching rows beyond its cursor. */
  ghost predicate Shows(pos: Position, r: set<Key>, offset: nat, limit: nat, page: Page)
    requires Injective(pos)
  {
    ShowsOf(Listing(pos, r), offset, limit, page)
  }

  ghost predicate Accepted(q: Query) {
    && !(q.cursor.Some? && q.offset.Some?)
    && (q.limit.Some? ==> q.limit.value >= 1)
    && (q.offset.Some? ==> q.offset.value >= 0)
  }

  /** The rows a query's conditions select. */
  method SelectRows(dialect: Dialect, order: IdOrder, table: Table, q: Query)
    returns (matching: set<Key>, selected: set<Key>)
    requires OrderFits(dialect, order)
    ensures matching == Matching(table, q.filter)
    ensures selected == Beyond(NewestFirst(order), matching, q.cursor)
  {
    var conditions := BuildQueryConditions(dialect, q.filter);
    matching := set k | k in table && Where(conditions, k, table[k]);
    selected := set k | k in matching && (q.cursor.Some? ==> CursorHolds(dialect, order, q.cursor.value, k));
    if q.cursor.Some? {
      forall k
        ensures CursorHolds(dialect, order, q.cursor.value, k) <==>
          NewestFirst(order)(q.cursor.value) < NewestFirst(order)(k)
      {
        CursorConditions(dialect, order, q.cursor.value, k);
      }
    }
  }

  lemma SliceOfFront(all: seq<Key>, offset: nat, count: nat)
    ensures var front := all[..Clip(offset + count, |all|)];
      front[Clip(offset, |front|)..] == Slice(all, offset, count)
  {
  }

  /** `OFFSET offset LIMIT count` */
  method FetchRows(pos: Position, r: set<Key>, offset: nat, count: nat) returns (rows: seq<Key>, ghost all: seq<Key>)
    requires Injective(pos)
    ensures all == Listing(pos, r) && rows == Slice(all, offset, count)
  {
    all := Listing(pos, r);
    var fetched := SelectPage(pos, r, offset + count);
    PageIsFront(pos, fetched, r, offset + count);
    SliceOfFront(all, offset, count);
    rows := fetched[Clip(offset, |fetched|)..];
  }

  /** `pageEntries`: one row more than the page holds tells whether there is more. */
  method PageEntries(rows: seq<Key>, limit: nat, ghost all: seq<Key>, ghost offset: nat) returns (page: Page)
    requires limit >= 1 && rows == Slice(all, offset, limit + 1)
    ensures ShowsOf(all, offset, limit, page) && page.total == None
  {
    var hasMore := |rows| > limit;
    var pageRows := rows[..Clip(limit, |rows|)];
    var next := if hasMore then Some(pageRows[|pageRows| - 1]) else None;
    page := Page(pageRows, hasMore, next, None);
  }

  /** `validateQueryPagination` */
  method ValidatePagination(q: Query) returns (error: Option<QueryError>)
    ensures error.None? <==> Accepted(q)
    ensures error == Some(CursorAndOffset) <==> q.cursor.Some? && q.offset.Some?
    ensures error == Some(BadLimit) <==> !(q.cursor.Some? && q.offset.Some?) && q.limit.Some? && q.limit.value < 1
    ensures error != Some(UnsafeTotal)
  {
    if q.cursor.Some? && q.offset.Some? { return Some(CursorAndOffset); }
    if q.limit.Some? && q.limit.value < 1 { return Some(BadLimit); }
    if q.offset.Some? && q.offset.value < 0 { return Some(BadOffset); }
    return None;
  }

  /** `page` holds the rows of `list` from position `start` on, at most `size` of them. */
  predicate ShowsFrom(list: seq<Key>, start: nat, size: nat, page: Page)
    requires size >= 1
  {
    && |page.entries| == (if |list| <= start then 0 else if |list| - start < size then |list| - start else size)
    && (forall i :: 0 <= i < |page.entries| ==> page.entries[i] == list[start + i])
    && (page.hasMore <==> |list| > start + size)
    && page.nextCursor == if |list| > start + size then Some(list[start + size - 1]) else None
  }

  /** What a query answers: the matching rows after its cursor, in order; from the offset on if
      it gives one, else from the front; 50 of them unless it gives a limit. */
  ghost predicate Answers(order: IdOrder, table: Table, q: Query, page: Page)
    requires Injective(NewestFirst(order)) && Accepted(q)
  {
    var pos := NewestFirst(order);
    var matching := Matching(table, q.filter);
    && ShowsFrom(Listing(pos, Beyond(pos, matching, q.cursor)), if q.offset.Some? then q.offset.value else 0,
                 if q.limit.Some? then q.limit.value else 50, page)
    && page.total == if q.includeTotal then Some(|matching|) else None
  }

  lemma AnswerOf(order: IdOrder, table: Table, q: Query, matching: set<Key>, selected: set<Key>, page: Page)
    requires Injective(NewestFirst(order)) && Accepted(q)
    requires matching == Matching(table, q.filter) && selected == Beyond(NewestFirst(order), matching, q.cursor)
    requires Shows(NewestFirst(order), selected, Offset(q), Limit(q), page)
    requires page.total == if q.includeTotal then Some(|matching|) else None
    ensures Answers(order, table, q, page)
  {
    ShownFrom(Listing(NewestFirst(order), selected), Offset(q), Limit(q), page);
  }

  lemma ShownFrom(list: seq<Key>, offset: nat, limit: nat, page: Page)
    requires limit >= 1 && ShowsOf(list, offset, limit, page)
    ensures ShowsFrom(list, offset, limit, page)
  {
  }

  /** `query` of both services. */
  method RunQuery(dialect: Dialect, order: IdOrder, table: Table, q: Query) returns (r: Result<Page, QueryError>)
    requires OrderFits(dialect, order)
    ensures Injective(NewestFirst(order))
    ensures r.Ok? <==>
      Accepted(q) && (dialect.SqlServer? && q.includeTotal ==> |Matching(table, q.filter)| < 0x20_0000_0000_0000)
    ensures r.Ok? ==> Answers(order, table, q, r.value)
    ensures r.Failed? ==> (r.error == UnsafeTotal <==> Accepted(q))
  {
    NewestFirstInjective(order);
    var invalid := ValidatePagination(q);
    if invalid.Some? { return Failed(invalid.value); }
    var matching, selected := SelectRows(dialect, order, table, q);
    var page := FetchPage(NewestFirst(order), selected, Offset(q), Limit(q));
    if q.includeTotal {
      if dialect.SqlServer? && |matching| > MAX_SAFE_INTEGER { return Failed(UnsafeTotal); }
      page := page.(total := Some(|matching|));
    }
    AnswerOf(order, table, q, matching, selected, page);
    return Ok(page);
  }

  method FetchPage(pos: Position, r: set<Key>, offset: nat, limit: nat) returns (page: Page)
    requires Injective(pos) && limit >= 1
    ensures Shows(pos, r, offset, limit, page) && page.total == None
  {
    var rows, all := FetchRows(pos, r, offset, limit + 1);
    page := PageEntries(rows, limit, all, offset);
  }

  // ----- following nextCursor -----

  /** One request of a walk, and the table it met. */
  datatype Visit = Visit(table: Table, limit: nat, page: Page)

  ghost predicate Answered(pos: Position, f: Filter, cursor: Option<Key>, v: Visit)
    requires Injective(pos)
  {
    v.limit >= 1 && Shows(pos, Beyond(pos, Matching(v.table, f), cursor), 0, v.limit, v.page)
  }

  /** Requests that start at `cursor` and follow `nextCursor` to the end. */
  ghost predicate Walks(pos: Position, f: Filter, cursor: Option<Key>, visits: seq<Visit>)
    requires Injective(pos)
    decreases |visits|
  {
    && visits != []
    && Answered(pos, f, cursor, visits[0])
    && (if visits[0].page.nextCursor.None? then |visits| == 1
        else Walks(pos, f, visits[0].page.nextCursor, visits[1..]))
  }

  function Collected(visits: seq<Visit>): seq<Key> {
    if visits == [] then [] else visits[0].page.entries + Collected(visits[1..])
  }

  /** A page of `r` is in order, and what it leaves out lies beyond its next cursor. */
  ghost predicate Covers(pos: Position, r: set<Key>, page: Page) {
    && Ascending(pos, page.entries)
    && (forall k :: k in page.entries ==> k in r)
    && (page.nextCursor.None? ==> forall k :: k in r ==> k in page.entries)
    && (page.nextCursor.Some? ==> page.nextCursor.value in r && UpToNext(pos, r, page.entries, page.nextCursor.value))
  }

  ghost predicate UpToNext(pos: Position, r: set<Key>, p: seq<Key>, next: Key) {
    && (forall k :: k in p ==> pos(k) <= pos(next))
    && (forall k :: k in r && k !in p ==> pos(next) < pos(k))
  }

  lemma FrontUpToNext(pos: Position, all: seq<Key>, r: set<Key>, n: nat)
    requires Ascending(pos, all) && n < |all| && forall k :: k in all <==> k in r
    ensures UpToNext(pos, r, all[..n + 1], all[n])
  {
    var p := all[..n + 1];
    forall k | k in p ensures pos(k) <= pos(all[n]) {
      var i :| 0 <= i < |p| && p[i] == k;
      assert all[i] == k;
    }
    forall j | 0 <= j <= n ensures all[j] in p {
      assert p[j] == all[j];
    }
    forall k | k in r && k !in p ensures pos(all[n]) < pos(k) {
      assert k in all;
      var i :| 0 <= i < |all| && all[i] == k;
    }
  }

  lemma FrontCovers(pos: Position, all: seq<Key>, r: set<Key>, limit: nat, page: Page)
    requires Ascending(pos, all) && forall k :: k in all <==> k in r
    requires limit >= 1 && ShowsOf(all, 0, limit, page)
    ensures Covers(pos, r, page)
  {
    var p := page.entries;
    if |all| > limit {
      FrontUpToNext(pos, all, r, limit - 1);
      assert p == all[..limit - 1 + 1];
      assert all[limit - 1] in r;
    } else {
      assert p == all;
    }
    assert forall k :: k in p ==> k in all;
  }

  lemma OnePage(pos: Position, r: set<Key>, limit: nat, page: Page)
    requires Injective(pos) && limit >= 1 && Shows(pos, r, 0, limit, page)
    ensures Covers(pos, r, page)
  {
    FrontCovers(pos, Listing(pos, r), r, limit, page);
  }

  ghost predicate AllBeyond(pos: Position, cursor: Option<Key>, p: seq<Key>) {
    cursor.Some? ==> forall k :: k in p ==> pos(cursor.value) < pos(k)
  }

  lemma AscendingConcat(pos: Position, p: seq<Key>, q: seq<Key>, middle: Key)
    requires Ascending(pos, p) && Ascending(pos, q)
    requires forall k :: k in p ==> pos(k) <= pos(middle)
    requires forall k :: k in q ==> pos(middle) < pos(k)
    ensures Ascending(pos, p + q)
  {
    forall i, j | 0 <= i < j < |p + q| ensures pos((p + q)[i]) < pos((p + q)[j]) {
      if i < |p| { assert p[i] in p; }
      if |p| <= j { assert q[j - |p|] in q; }
    }
  }

  /** The first request of a walk and the rest of it. */
  lemma FirstVisit(pos: Position, f: Filter, cursor: Option<Key>, visits: seq<Visit>)
    requires Injective(pos) && Walks(pos, f, cursor, visits)
    ensures Covers(pos, Beyond(pos, Matching(visits[0].table, f), cursor), visits[0].page)
    ensures AllBeyond(pos, cursor, visits[0].page.entries)
    ensures Collected(visits) == visits[0].page.entries + Collected(visits[1..])
    ensures var next := visits[0].page.nextCursor;
      if next.None? then visits[1..] == []
      else Walks(pos, f, next, visits[1..]) && (cursor.Some? ==> pos(cursor.value) < pos(next.value))
  {
    OnePage(pos, Beyond(pos, Matching(visits[0].table, f), cursor), visits[0].limit, visits[0].page);
  }

  lemma BeyondFurther(pos: Position, cursor: Option<Key>, next: Key, p: seq<Key>)
    requires AllBeyond(pos, Some(next), p) && (cursor.Some? ==> pos(cursor.value) < pos(next))
    ensures AllBeyond(pos, cursor, p)
  {
  }

  /** Strictly newest-first, whatever happens to the table between two requests. */
  lemma {:induction false} WalkDescends(pos: Position, f: Filter, cursor: Option<Key>, visits: seq<Visit>)
    requires Injective(pos) && Walks(pos, f, cursor, visits)
    ensures Ascending(pos, Collected(visits)) && AllBeyond(pos, cursor, Collected(visits))
    decreases |visits|
  {
    FirstVisit(pos, f, cursor, visits);
    var p, next := visits[0].page.entries, visits[0].page.nextCursor;
    if next.Some? {
      WalkDescends(pos, f, next, visits[1..]);
      AscendingConcat(pos, p, Collected(visits[1..]), next.value);
      BeyondFurther(pos, cursor, next.value, Collected(visits[1..]));
    } else {
      assert p + Collected(visits[1..]) == p;
    }
  }

  lemma FirstVisitMatches(pos: Position, f: Filter, cursor: Option<Key>, visits: seq<Visit>, k: Key)
    requires Injective(pos) && Walks(pos, f, cursor, visits) && k in Collected(visits)
    ensures k in visits[0].page.entries ==> k in Matching(visits[0].table, f)
    ensures k !in visits[0].page.entries ==>
      && k in Collected(visits[1..]) && visits[0].page.nextCursor.Some?
      && Walks(pos, f, visits[0].page.nextCursor, visits[1..])
  {
    FirstVisit(pos, f, cursor, visits);
  }

  ghost predicate MetRow(v: Visit, f: Filter, k: Key) {
    k in Matching(v.table, f)
  }

  /** Everything collected was a matching row of the table its request met. */
  lemma {:induction false} WalkIsSound(pos: Position, f: Filter, cursor: Option<Key>, visits: seq<Visit>, k: Key)
    returns (visit: Visit)
    requires Injective(pos) && Walks(pos, f, cursor, visits) && k in Collected(visits)
    ensures visit in visits && MetRow(visit, f, k)
    decreases |visits|
  {
    FirstVisitMatches(pos, f, cursor, visits, k);
    visit := visits[0];
    if k !in visit.page.entries {
      visit := WalkIsSound(pos, f, visit.page.nextCursor, visits[1..], k);
    }
  }

  lemma {:induction false} WalkIsComplete(pos: Position, f: Filter, cursor: Option<Key>, visits: seq<Visit>, k: Key)
    requires Injective(pos) && Walks(pos, f, cursor, visits)
    requires forall i :: 0 <= i < |visits| ==> k in Matching(visits[i].table, f)
    requires cursor.Some? ==> pos(cursor.value) < pos(k)
    ensures k in Collected(visits)
    decreases |visits|
  {
    FirstVisit(pos, f, cursor, visits);
    assert k in Beyond(pos, Matching(visits[0].table, f), cursor);
    if k !in visits[0].page.entries {
      forall i | 0 <= i < |visits[1..]| ensures k in Matching(visits[1..][i].table, f) {
        assert visits[1..][i] == visits[i + 1];
      }
      WalkIsComplete(pos, f, visits[0].page.nextCursor, visits[1..], k);
    }
  }

  lemma BeyondShrinks(pos: Position, r: set<Key>, cursor: Option<Key>, next: Key)
    requires next in Beyond(pos, r, cursor)
    ensures Beyond(pos, r, Some(next)) < Beyond(pos, r, cursor)
  {
    assert next !in Beyond(pos, r, Some(next));
  }

  /** The page that starts the list `all`. */
  function FrontPage(all: seq<Key>, limit: nat): (page: Page)
    requires limit >= 1
    ensures ShowsOf(all, 0, limit, page)
    ensures page.nextCursor.Some? ==> page.nextCursor.value in all
  {
    Page(all[..Clip(limit, |all|)], |all| > limit, if |all| > limit then Some(all[limit - 1]) else None, None)
  }

  lemma SmallerSet(a: set<Key>, b: set<Key>)
    requires a < b
    ensures |a| < |b|
  {
    assert b == a + (b - a);
    assert b - a != {};
  }

  ghost function Left(pos: Position, f: Filter, table: Table, cursor: Option<Key>): nat {
    |Beyond(pos, Matching(table, f), cursor)|
  }

  lemma FewerLeft(pos: Position, f: Filter, table: Table, cursor: Option<Key>, next: Key)
    requires next in Beyond(pos, Matching(table, f), cursor)
    ensures Left(pos, f, table, Some(next)) < Left(pos, f, table, cursor)
  {
    var r := Matching(table, f);
    BeyondShrinks(pos, r, cursor, next);
    SmallerSet(Beyond(pos, r, Some(next)), Beyond(pos, r, cursor));
  }

  lemma AnswerExists(pos: Position, f: Filter, table: Table, limit: nat, cursor: Option<Key>) returns (visit: Visit)
    requires Injective(pos) && limit >= 1
    ensures Answered(pos, f, cursor, visit) && visit.table == table && visit.limit == limit
    ensures visit.page.nextCursor.Some? ==> visit.page.nextCursor.value in Beyond(pos, Matching(table, f), cursor)
  {
    visit := Visit(table, limit, FrontPage(Listing(pos, Beyond(pos, Matching(table, f), cursor)), limit));
  }

  /** A walk of single-table requests with one page size, request by request. */
  ghost predicate SteadyWalk(
    pos: Position, f: Filter, table: Table, limit: nat, cursor: Option<Key>, visits: seq<Visit>)
    requires Injective(pos)
    decreases |visits|
  {
    && visits != []
    && visits[0].table == table && visits[0].limit == limit
    && Answered(pos, f, cursor, visits[0])
    && (if visits[0].page.nextCursor.None? then |visits| == 1
        else SteadyWalk(pos, f, table, limit, visits[0].page.nextCursor, visits[1..]))
  }

  lemma {:induction false} SteadyWalkExists(
    pos: Position, f: Filter, table: Table, limit: nat, cursor: Option<Key>, left: nat)
    returns (visits: seq<Visit>)
    requires Injective(pos) && limit >= 1 && left == Left(pos, f, table, cursor)
    ensures SteadyWalk(pos, f, table, limit, cursor, visits)
    decreases left
  {
    var visit := AnswerExists(pos, f, table, limit, cursor);
    var next := visit.page.nextCursor;
    visits := [visit];
    if next.Some? {
      FewerLeft(pos, f, table, cursor, next.value);
      var rest := SteadyWalkExists(pos, f, table, limit, next, Left(pos, f, table, next));
      visits := [visit] + rest;
      assert visits[1..] == rest;
    }
  }

  lemma {:induction false} SteadyWalkIsWalk(
    pos: Position, f: Filter, table: Table, limit: nat, cursor: Option<Key>, visits: seq<Visit>)
    requires Injective(pos) && SteadyWalk(pos, f, table, limit, cursor, visits)
    ensures Walks(pos, f, cursor, visits) && Steady(visits, table, limit)
    decreases |visits|
  {
    if visits[0].page.nextCursor.Some? {
      SteadyWalkIsWalk(pos, f, table, limit, visits[0].page.nextCursor, visits[1..]);
    }
  }

  predicate Steady(visits: seq<Visit>, table: Table, limit: nat) {
    visits == [] || (visits[0].table == table && visits[0].limit == limit && Steady(visits[1..], table, limit))
  }

  lemma {:induction false} SteadyAt(visits: seq<Visit>, table: Table, limit: nat, i: nat)
    requires Steady(visits, table, limit) && i < |visits|
    ensures visits[i].table == table && visits[i].limit == limit
  {
    if i > 0 { SteadyAt(visits[1..], table, limit, i - 1); }
  }

  /** On a table that does not change, following `nextCursor` comes to an end, whatever the
      page size. */
  lemma WalkEnds(pos: Position, f: Filter, table: Table, limit: nat, cursor: Option<Key>)
    returns (visits: seq<Visit>)
    requires Injective(pos) && limit >= 1
    ensures Walks(pos, f, cursor, visits)
    ensures forall i :: 0 <= i < |visits| ==> visits[i].table == table && visits[i].limit == limit
  {
    visits := SteadyWalkExists(pos, f, table, limit, cursor, Left(pos, f, table, cursor));
    SteadyWalkIsWalk(pos, f, table, limit, cursor, visits);
    forall i | 0 <= i < |visits| ensures visits[i].table == table && visits[i].limit == limit {
      SteadyAt(visits, table, limit, i);
    }
  }

  function Occurrences(p: seq<Key>, k: Key): nat {
    multiset(p)[k]
  }

  lemma {:induction false} AscendingOnce(pos: Position, p: seq<Key>, k: Key)
    requires Ascending(pos, p) && k in p
    ensures Occurrences(p, k) == 1
  {
    assert p == [p[0]] + p[1..];
    assert multiset(p) == multiset{p[0]} + multiset(p[1..]);
    if p[0] == k {
      forall i | 0 <= i < |p[1..]| ensures p[1..][i] != k {
        assert pos(p[0]) < pos(p[i + 1]);
      }
    } else {
      AscendingOnce(pos, p[1..], k);
    }
  }

  /** Keyset pagination: over any history of inserts and removals between the requests, every
      matching row present throughout is returned exactly once. */
  lemma EachRowOnce(order: IdOrder, f: Filter, visits: seq<Visit>, k: Key)
    requires OrdersIds(order) && Injective(NewestFirst(order)) && Walks(NewestFirst(order), f, None, visits)
    requires forall i :: 0 <= i < |visits| ==> k in Matching(visits[i].table, f)
    ensures Occurrences(Collected(visits), k) == 1
  {
    var pos := NewestFirst(order);
    WalkIsComplete(pos, f, None, visits, k);
    WalkDescends(pos, f, None, visits);
    AscendingOnce(pos, Collected(visits), k);
  }

  /** On a table that does not change, the pages put together are the whole filtered list, as
      long as the total that every page reports. */
  lemma StaticPagesAreTheList(order: IdOrder, f: Filter, table: Table, visits: seq<Visit>)
    requires OrdersIds(order) && Injective(NewestFirst(order)) && Walks(NewestFirst(order), f, None, visits)
    requires forall i :: 0 <= i < |visits| ==> visits[i].table == table
    ensures Collected(visits) == Listing(NewestFirst(order), Matching(table, f))
    ensures |Collected(visits)| == |Matching(table, f)|
  {
    var pos := NewestFirst(order);
    WalkDescends(pos, f, None, visits);
    forall k | k in Collected(visits) ensures k in Matching(table, f) {
      var visit := WalkIsSound(pos, f, None, visits, k);
    }
    forall k | k in Matching(table, f) ensures k in Collected(visits) {
      WalkIsComplete(pos, f, None, visits, k);
    }
    SameKeysSameList(pos, Collected(visits), Listing(pos, Matching(table, f)), Matching(table, f));
  }

  // ----- pages by offset -----

  /** The offset of the `n`-th page. */
  function OffsetOf(n: nat, limit: nat): nat {
    if n == 0 then 0 else OffsetOf(n - 1, limit) + limit
  }

  /** Pages of one size at the offsets 0, `limit`, 2 * `limit` and so on. */
  predicate OffsetPages(list: seq<Key>, limit: nat, pages: seq<Page>)
    requires limit >= 1
  {
    forall n: nat :: n < |pages| ==> ShowsFrom(list, OffsetOf(n, limit), limit, pages[n])
  }

  function Entries(pages: seq<Page>): seq<Key> {
    if pages == [] then [] else Entries(pages[..|pages| - 1]) + pages[|pages| - 1].entries
  }

  lemma {:induction false} OffsetPagesAreFront(list: seq<Key>, limit: nat, pages: seq<Page>)
    requires limit >= 1 && OffsetPages(list, limit, pages)
    ensures Entries(pages) == list[..Clip(OffsetOf(|pages|, limit), |list|)]
    decreases |pages|
  {
    if pages != [] {
      var n := |pages| - 1;
      assert forall i :: 0 <= i < n ==> pages[..n][i] == pages[i];
      OffsetPagesAreFront(list, limit, pages[..n]);
      FrontGrows(list, OffsetOf(n, limit), limit, pages[n]);
    }
  }

  lemma FrontGrows(list: seq<Key>, start: nat, limit: nat, page: Page)
    requires limit >= 1 && ShowsFrom(list, start, limit, page)
    ensures list[..Clip(start, |list|)] + page.entries == list[..Clip(start + limit, |list|)]
  {
  }

  lemma OffsetPagesAreAll(list: seq<Key>, limit: nat, pages: seq<Page>)
    requires limit >= 1 && pages != [] && OffsetPages(list, limit, pages) && !pages[|pages| - 1].hasMore
    ensures Entries(pages) == list
  {
    var n: nat := |pages| - 1;
    OffsetPagesAreFront(list, limit, pages);
    assert ShowsFrom(list, OffsetOf(n, limit), limit, pages[n]);
    assert list[..|list|] == list;
  }

  lemma AnswerShows(order: IdOrder, table: Table, f: Filter, limit: nat, start: nat, page: Page)
    requires Injective(NewestFirst(order)) && limit >= 1
    requires Answers(order, table, Query(f, None, Some(start), Some(limit), false), page)
    ensures ShowsFrom(Listing(NewestFirst(order), Matching(table, f)), start, limit, page)
  {
    assert Beyond(NewestFirst(order), Matching(table, f), None) == Matching(table, f);
  }

  /** On a table that does not change, the pages at the offsets 0, `limit`, 2 * `limit` and so
      on, up to the first that has no more, put together are the whole list. */
  lemma OffsetPagesAreTheList(order: IdOrder, f: Filter, table: Table, limit: nat, pages: seq<Page>)
    requires Injective(NewestFirst(order)) && limit >= 1 && pages != []
    requires forall n: nat :: n < |pages| ==>
      Answers(order, table, Query(f, None, Some(OffsetOf(n, limit)), Some(limit), false), pages[n])
    requires !pages[|pages| - 1].hasMore
    ensures Entries(pages) == Listing(NewestFirst(order), Matching(table, f))
  {
    var list := Listing(NewestFirst(order), Matching(table, f));
    forall n: nat | n < |pages| ensures ShowsFrom(list, OffsetOf(n, limit), limit, pages[n]) {
      AnswerShows(order, table, f, limit, OffsetOf(n, limit), pages[n]);
    }
    OffsetPagesAreAll(list, limit, pages);
  }

  /** The two databases' ids may be ordered differently, but the time order of the rows on a
      page never depends on it. */
  lemma PagesAreNewestFirst(order: IdOrder, f: Filter, visits: seq<Visit>, i: nat, j: nat)
    requires OrdersIds(order) && Injective(NewestFirst(order)) && Walks(NewestFirst(order), f, None, visits)
    requires i < j < |Collected(visits)|
    ensures Collected(visits)[j].ts <= Collected(visits)[i].ts
  {
    var pos := NewestFirst(order);
    WalkDescends(pos, f, None, visits);
    var a, b := Collected(visits)[i], Collected(visits)[j];
    assert pos(a) < pos(b);
    assert b.ts > a.ts ==> a.ts * ID_LIMIT + ID_LIMIT <= b.ts * ID_LIMIT;
  }
}
