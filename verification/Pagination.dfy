/**
 Keyset pagination of the dead-letter table in user-service: every page is the first `limit` rows after a
 cursor in (createdAt, id) order, and its last row becomes the next cursor.
 */
module Pagination {
  import opened Wrappers

  /** What a cursor holds. */
  datatype Key = Key(createdAt: int, id: string)

  datatype Row = Row(id: string, createdAt: int, sourceService: string, eventId: string, eventType: Option<string>) {
    function Place(): Key {
      Key(createdAt, id)
    }
  }

  /** A cursor as the client holds it; base64url, JSON and ISO dates are taken as invertible. */
  datatype CursorText = Encoded(key: Key) | Garbage(text: string)

  datatype Filter = Filter(sourceService: Option<string>, eventType: Option<string>)

  datatype Page = Page(data: seq<Row>, nextCursor: Option<CursorText>, hasMore: bool)

  datatype Error = InvalidCursor | UniqueViolation

  // ---------------------------------------------------------------- cursorPagination.ts

  function EncodeCursor(key: Key): CursorText {
    Encoded(key)
  }

  /** An empty id fails like any malformed cursor. */
  function DecodeCursor(cursor: CursorText): Result<Key, Error> {
    match cursor
    case Garbage(_) => Failure(InvalidCursor)
    case Encoded(key) => if key.id == "" then Failure(InvalidCursor) else Success(key)
  }

  predicate IdLess(a: string, b: string) {
    if b == "" then false
    else if a == "" then true
    else if a[0] != b[0] then a[0] < b[0]
    else IdLess(a[1..], b[1..])
  }

  /** The order of the pages, and the cursor condition of `buildCursorWhere`. */
  predicate Before(a: Key, b: Key) {
    b.createdAt > a.createdAt || (b.createdAt == a.createdAt && IdLess(a.id, b.id))
  }

  predicate Accepts(wanted: Option<string>, value: Option<string>) {
    wanted.None? || wanted.value == "" || wanted == value
  }

  predicate Selected(filter: Filter, cursor: Key, row: Row) {
    Accepts(filter.sourceService, Some(row.sourceService)) && Accepts(filter.eventType, row.eventType)
      && Before(cursor, row.Place())
  }

  function PaginateResult(results: seq<Row>, limit: nat): Page {
    var hasMore := |results| > limit;
    var data := if hasMore then results[..limit] else results;
    Page(data, if data == [] then None else Some(EncodeCursor(data[|data| - 1].Place())), hasMore)
  }

  function ParseLimit(limit: int): nat {
    var atLeastOne := if limit < 1 then 1 else limit;
    if atLeastOne > 100 then 100 else atLeastOne
  }

  // ---------------------------------------------------------------- the order is total

  lemma {:induction false} IdTotal(a: string, b: string)
    ensures if a == b then !IdLess(a, b) else IdLess(a, b) == !IdLess(b, a)
  {
    if a != "" && b != "" && a[0] == b[0] {
      IdTotal(a[1..], b[1..]);
      assert a == [a[0]] + a[1..] && b == [b[0]] + b[1..];
    }
  }

  lemma {:induction false} IdTransitive(a: string, b: string, c: string)
    requires IdLess(a, b) && IdLess(b, c)
    ensures IdLess(a, c)
  {
    if a != "" && a[0] == b[0] == c[0] {
      IdTransitive(a[1..], b[1..], c[1..]);
    }
  }

  lemma BeforeTotal(a: Key, b: Key)
    ensures if a == b then !Before(a, b) else Before(a, b) == !Before(b, a)
  {
    IdTotal(a.id, b.id);
  }

  lemma BeforeTransitive(a: Key, b: Key, c: Key)
    requires Before(a, b) && Before(b, c)
    ensures Before(a, c)
  {
    if a.createdAt == b.createdAt == c.createdAt {
      IdTransitive(a.id, b.id, c.id);
    }
  }

  /** a and b agree before position n; there b goes on and a ends, or b has the larger character. */
  ghost predicate FirstDiffers(a: string, b: string, n: nat) {
    && n <= |a| && n < |b| && a[..n] == b[..n]
    && (n == |a| || a[n] < b[n])
  }

  lemma DiffersOneLater(a: string, b: string, n: nat)
    requires a != "" && b != "" && a[0] == b[0]
    ensures FirstDiffers(a, b, n + 1) <==> FirstDiffers(a[1..], b[1..], n)
  {
    if n < |a| && n < |b| {
      assert a[..n + 1] == [a[0]] + a[1..][..n] && b[..n + 1] == [b[0]] + b[1..][..n];
      assert a[..n + 1][1..] == a[1..][..n] && b[..n + 1][1..] == b[1..][..n];
    }
  }

  lemma OnlyAtTheHead(a: string, b: string, n: nat)
    requires FirstDiffers(a, b, n) && a != "" && a[0] != b[0]
    ensures a[0] < b[0]
  {
  }

  /** The id order is that of a dictionary: a proper prefix comes first, else the first different character decides. */
  lemma {:induction false} IdLessMeaning(a: string, b: string)
    ensures IdLess(a, b) <==> exists n: nat :: FirstDiffers(a, b, n)
  {
    if b != "" && a == "" {
      assert FirstDiffers(a, b, 0);
    } else if b != "" && a[0] != b[0] {
      assert a[0] < b[0] ==> FirstDiffers(a, b, 0);
      forall n: nat | FirstDiffers(a, b, n) ensures a[0] < b[0] {
        OnlyAtTheHead(a, b, n);
      }
    } else if b != "" {
      IdLessMeaning(a[1..], b[1..]);
      if IdLess(a, b) {
        var n: nat :| FirstDiffers(a[1..], b[1..], n);
        DiffersOneLater(a, b, n);
        assert FirstDiffers(a, b, n + 1);
      }
      forall n: nat | FirstDiffers(a, b, n) ensures IdLess(a, b) {
        DiffersOneLater(a, b, n - 1);
      }
    }
  }

  // ---------------------------------------------------------------- findMany

  ghost predicate Increasing(rows: seq<Row>) {
    forall i, j :: 0 <= i < j < |rows| ==> Before(rows[i].Place(), rows[j].Place())
  }

  /** The id is the table's primary key. */
  ghost predicate DistinctIds(table: seq<Row>) {
    forall i, j :: 0 <= i < j < |table| ==> table[i].id != table[j].id
  }

  predicate SameEvent(a: Row, b: Row) {
    a.sourceService == b.sourceService && a.eventId == b.eventId
  }

  ghost predicate UniqueEvents(table: seq<Row>) {
    forall i, j :: 0 <= i < j < |table| ==> !SameEvent(table[i], table[j])
  }

  function Insert(row: Row, rows: seq<Row>): seq<Row> {
    if rows == [] || Before(row.Place(), rows[0].Place()) then [row] + rows else [rows[0]] + Insert(row, rows[1..])
  }

  /** `where` and `orderBy` of the query, before `take`. */
  function Query(table: seq<Row>, filter: Filter, cursor: Key): seq<Row> {
    if table == [] then []
    else
      var rest := Query(table[1..], filter, cursor);
      if Selected(filter, cursor, table[0]) then Insert(table[0], rest) else rest
  }

  lemma {:induction false} InsertMeaning(row: Row, rows: seq<Row>)
    requires Increasing(rows) && forall r :: r in rows ==> r.id != row.id
    ensures Increasing(Insert(row, rows))
    ensures forall r :: r in Insert(row, rows) <==> r == row || r in rows
  {
    if rows != [] && !Before(row.Place(), rows[0].Place()) {
      assert rows == [rows[0]] + rows[1..];
      InsertMeaning(row, rows[1..]);
      BeforeTotal(rows[0].Place(), row.Place());
      var rest := Insert(row, rows[1..]);
      forall j | 0 <= j < |rest| ensures Before(rows[0].Place(), rest[j].Place()) {
        assert rest[j] in rest;
      }
    } else if rows != [] {
      forall j | 0 < j < |rows| ensures Before(row.Place(), rows[j].Place()) {
        BeforeTransitive(row.Place(), rows[0].Place(), rows[j].Place());
      }
    }
  }

  /** The query gives exactly the selected rows, in strictly increasing order. */
  lemma {:induction false} QueryMeaning(table: seq<Row>, filter: Filter, cursor: Key)
    requires DistinctIds(table)
    ensures Increasing(Query(table, filter, cursor))
    ensures forall r :: r in Query(table, filter, cursor) <==> r in table && Selected(filter, cursor, r)
  {
    if table == [] {
    } else {
      var rest := Query(table[1..], filter, cursor);
      QueryMeaning(table[1..], filter, cursor);
      assert table == [table[0]] + table[1..];
      if Selected(filter, cursor, table[0]) {
        InsertMeaning(table[0], rest);
      }
    }
  }

  /** `where`, condition by condition: an absent or empty filter asks for nothing. */
  ghost predicate Wanted(filter: Filter, cursor: Key, r: Row) {
    && (filter.sourceService.Some? && filter.sourceService.value != "" ==>
          r.sourceService == filter.sourceService.value)
    && (filter.eventType.Some? && filter.eventType.value != "" ==> r.eventType == filter.eventType)
    && cursor.createdAt <= r.createdAt
    && (cursor.createdAt == r.createdAt ==> exists n: nat :: FirstDiffers(cursor.id, r.id, n))
  }

  /** `orderBy`: by createdAt ascending, rows of one instant by id ascending. */
  ghost predicate Ascending(rows: seq<Row>) {
    forall i, j :: 0 <= i < j < |rows| ==>
      && rows[i].createdAt <= rows[j].createdAt
      && (rows[i].createdAt == rows[j].createdAt ==> exists n: nat :: FirstDiffers(rows[i].id, rows[j].id, n))
  }

  lemma WantedMeaning(filter: Filter, cursor: Key, r: Row)
    ensures Selected(filter, cursor, r) <==> Wanted(filter, cursor, r)
  {
    IdLessMeaning(cursor.id, r.id);
  }

  lemma IncreasingIsAscending(rows: seq<Row>)
    requires Increasing(rows)
    ensures Ascending(rows)
  {
    forall i, j | 0 <= i < j < |rows|
      ensures rows[i].createdAt <= rows[j].createdAt
      ensures rows[i].createdAt == rows[j].createdAt ==> exists n: nat :: FirstDiffers(rows[i].id, rows[j].id, n)
    {
      assert Before(rows[i].Place(), rows[j].Place());
      IdLessMeaning(rows[i].id, rows[j].id);
    }
  }

  /** The rows of the query, by the conditions asked for, oldest first. */
  lemma QueryExactly(table: seq<Row>, filter: Filter, cursor: Key)
    requires DistinctIds(table)
    ensures Ascending(Query(table, filter, cursor))
    ensures forall r :: r in Query(table, filter, cursor) <==> r in table && Wanted(filter, cursor, r)
  {
    QueryMeaning(table, filter, cursor);
    IncreasingIsAscending(Query(table, filter, cursor));
    forall r ensures Selected(filter, cursor, r) <==> Wanted(filter, cursor, r) {
      WantedMeaning(filter, cursor, r);
    }
  }

  /** `list`: the cursor is decoded first; `take` is one row more than the page. */
  function List(table: seq<Row>, filter: Filter, cursor: CursorText, limit: nat): Result<Page, Error> {
    var decoded := DecodeCursor(cursor);
    if decoded.Failure? then Failure(InvalidCursor)
    else
      var rows := Query(table, filter, decoded.value);
      Success(PaginateResult(if |rows| > limit + 1 then rows[..limit + 1] else rows, limit))
  }

  class DeadLetterEvents {
    var rows: seq<Row>

    /** The primary key, and the constraint that keeps redelivered dead letters single. */
    ghost predicate Valid()
      reads this
    {
      DistinctIds(rows) && UniqueEvents(rows)
    }

    constructor ()
      ensures Valid() && rows == []
    {
      rows := [];
    }

    method FindById(id: string) returns (row: Option<Row>)
      ensures row.Some? ==> row.value in rows && row.value.id == id
      ensures row.None? ==> forall r :: r in rows ==> r.id != id
    {
      var i := 0;
      while i < |rows|
        invariant 0 <= i <= |rows|
        invariant forall j :: 0 <= j < i ==> rows[j].id != id
      {
        if rows[i].id == id {
          return Some(rows[i]);
        }
        i := i + 1;
      }
      return None;
    }

    /** `create`; the id is newly generated, so only the pair of source and event can clash. */
    method Create(row: Row) returns (result: Result<Row, Error>)
      requires Valid() && forall r :: r in rows ==> r.id != row.id
      modifies this
      ensures Valid()
      ensures result ==
        if exists r :: r in old(rows) && SameEvent(r, row) then Failure(UniqueViolation) else Success(row)
      ensures rows == if result.Success? then old(rows) + [row] else old(rows)
    {
      var i := 0;
      while i < |rows|
        invariant 0 <= i <= |rows|
        invariant forall j :: 0 <= j < i ==> !SameEvent(rows[j], row)
      {
        if SameEvent(rows[i], row) {
          return Failure(UniqueViolation);
        }
        i := i + 1;
      }
      rows := rows + [row];
      return Success(row);
    }

    /** The first `limit` of the selected rows, and whether there are more. */
    method ListPage(filter: Filter, cursor: CursorText, limit: nat) returns (result: Result<Page, Error>)
      requires Valid()
      ensures result == List(rows, filter, cursor, limit)
      ensures result.Success? ==>
        && Increasing(result.value.data) && |result.value.data| <= limit
        && (result.value.hasMore ==> |result.value.data| == limit)
        && (forall r :: r in result.value.data ==> r in rows && Selected(filter, cursor.key, r))
    {
      var decoded := DecodeCursor(cursor);
      if decoded.Failure? {
        return Failure(InvalidCursor);
      }
      var found := Query(rows, filter, decoded.value);
      QueryMeaning(rows, filter, decoded.value);
      if |found| > limit + 1 {
        found := found[..limit + 1];
      }
      return Success(PaginateResult(found, limit));
    }
  }

  // ---------------------------------------------------------------- one page

  lemma CursorRoundTrip(key: Key)
    ensures DecodeCursor(EncodeCursor(key)) == Success(key) <==> key.id != ""
    ensures DecodeCursor(EncodeCursor(key)).Failure? <==> key.id == ""
  {
  }

  /** More rows always come with a cursor to reach them exactly if the limit is positive, as the clamp makes it. */
  lemma CursorWhenMore(limit: nat)
    ensures 0 < limit <==>
      forall results :: PaginateResult(results, limit).hasMore ==> PaginateResult(results, limit).nextCursor.Some?
    ensures forall asked :: 0 < ParseLimit(asked) <= 100 && (1 <= asked <= 100 ==> ParseLimit(asked) == asked)
  {
    if limit == 0 {
      var results := [Row("a", 0, "s", "e", None)];
      assert PaginateResult(results, limit).hasMore && PaginateResult(results, limit).nextCursor.None?;
    }
  }

  /** One row more than the page is enough to see whether there are more. */
  lemma OneMoreTells(all: seq<Row>, limit: nat)
    requires 0 < limit
    ensures PaginateResult(if |all| > limit + 1 then all[..limit + 1] else all, limit) ==
      if |all| > limit then Page(all[..limit], Some(EncodeCursor(all[limit - 1].Place())), true)
      else Page(all, if all == [] then None else Some(EncodeCursor(all[|all| - 1].Place())), false)
  {
    if |all| > limit + 1 {
      assert all[..limit + 1][..limit] == all[..limit];
    }
  }

  /** The first page of a query, by its meaning. */
  lemma ListMeaning(table: seq<Row>, filter: Filter, cursor: Key, limit: nat)
    requires cursor.id != "" && 0 < limit
    ensures var all := Query(table, filter, cursor);
      List(table, filter, EncodeCursor(cursor), limit) == Success(
        if |all| > limit then Page(all[..limit], Some(EncodeCursor(all[limit - 1].Place())), true)
        else Page(all, if all == [] then None else Some(EncodeCursor(all[|all| - 1].Place())), false))
  {
    OneMoreTells(Query(table, filter, cursor), limit);
  }

  // ---------------------------------------------------------------- the walk over a fixed table

  lemma TailRows(a: seq<Row>, b: seq<Row>)
    requires a != [] && b != [] && a[0] == b[0] && Increasing(a) && forall r :: r in a ==> r in b
    ensures forall r :: r in a[1..] ==> r in b[1..]
  {
    forall r | r in a[1..] ensures r in b[1..] {
      var i :| 0 <= i < |a| - 1 && a[1..][i] == r;
      assert Before(a[0].Place(), a[i + 1].Place());
      BeforeTotal(a[0].Place(), a[0].Place());
      assert a[i + 1] in b && b == [b[0]] + b[1..];
    }
  }

  /** Two increasing sequences of the same rows are the same. */
  lemma {:induction false} IncreasingUnique(a: seq<Row>, b: seq<Row>)
    requires Increasing(a) && Increasing(b) && forall r :: r in a <==> r in b
    ensures a == b
  {
    assert b != [] ==> b[0] in b;
    if a != [] {
      assert a[0] in b;
      assert b[0] in a;
      var i :| 0 <= i < |b| && b[i] == a[0];
      var j :| 0 <= j < |a| && a[j] == b[0];
      assert i != 0 ==> Before(b[0].Place(), b[i].Place());
      assert j != 0 ==> Before(a[0].Place(), a[j].Place());
      BeforeTotal(a[0].Place(), b[0].Place());
      TailRows(a, b);
      TailRows(b, a);
      IncreasingUnique(a[1..], b[1..]);
      assert a == [a[0]] + a[1..] && b == [b[0]] + b[1..];
    }
  }

  lemma NotBeforeItself(rows: seq<Row>, i: nat, j: nat)
    requires Increasing(rows) && i < |rows| && j < |rows| && Before(rows[j].Place(), rows[i].Place())
    ensures j < i
  {
    BeforeTotal(rows[j].Place(), rows[i].Place());
  }

  /** After a full page, what is left of the query is the query from that page's last row. */
  lemma QueryFromLast(table: seq<Row>, filter: Filter, cursor: Key, n: nat)
    requires DistinctIds(table) && 0 < n <= |Query(table, filter, cursor)|
    ensures Query(table, filter, Query(table, filter, cursor)[n - 1].Place()) == Query(table, filter, cursor)[n..]
  {
    var all := Query(table, filter, cursor);
    var last := all[n - 1].Place();
    QueryMeaning(table, filter, cursor);
    QueryMeaning(table, filter, last);
    assert all[n - 1] in all;
    forall r ensures r in Query(table, filter, last) <==> r in all[n..] {
      if r in Query(table, filter, last) {
        BeforeTransitive(cursor, last, r.Place());
        assert r in all;
        var i :| 0 <= i < |all| && all[i] == r;
        NotBeforeItself(all, i, n - 1);
        assert all[i] == all[n..][i - n];
      }
      if r in all[n..] {
        var i :| 0 <= i < |all| - n && all[n..][i] == r;
        assert all[i + n] == r && r in all;
      }
    }
    IncreasingUnique(Query(table, filter, last), all[n..]);
  }

  /** Ids are generated and never empty, so every next cursor decodes. */
  ghost predicate NonemptyIds(table: seq<Row>) {
    forall r :: r in table ==> r.id != ""
  }

  function Flatten(pages: seq<seq<Row>>): seq<Row> {
    if pages == [] then [] else pages[0] + Flatten(pages[1..])
  }

  /** The cursor a page hands on, as the next request decodes it. */
  function NextKey(page: Page): Option<Key> {
    if !page.hasMore || page.nextCursor.None? || DecodeCursor(page.nextCursor.value).Failure? then None
    else Some(DecodeCursor(page.nextCursor.value).value)
  }

  lemma NextKeyMeaning(table: seq<Row>, filter: Filter, cursor: Key, limit: nat)
    requires DistinctIds(table) && NonemptyIds(table) && cursor.id != "" && 0 < limit
    ensures var all, page := Query(table, filter, cursor), List(table, filter, EncodeCursor(cursor), limit);
      && page.Success? && (page.value.hasMore <==> |all| > limit)
      && page.value.data == all[..if |all| > limit then limit else |all|]
      && (if |all| <= limit then NextKey(page.value) == None
          else NextKey(page.value) == Some(all[limit - 1].Place()) && all[limit - 1].id != ""
               && Query(table, filter, all[limit - 1].Place()) == all[limit..])
  {
    var all := Query(table, filter, cursor);
    ListMeaning(table, filter, cursor, limit);
    QueryMeaning(table, filter, cursor);
    if |all| > limit {
      assert all[limit - 1] in all;
      QueryFromLast(table, filter, cursor, limit);
    }
  }

  /** The pages a client gets by following nextCursor while hasMore. */
  function Walk(table: seq<Row>, filter: Filter, cursor: Key, limit: nat): (pages: seq<seq<Row>>)
    requires DistinctIds(table) && NonemptyIds(table) && cursor.id != "" && 0 < limit
    decreases |Query(table, filter, cursor)|
  {
    NextKeyMeaning(table, filter, cursor, limit);
    var page := List(table, filter, EncodeCursor(cursor), limit).value;
    if NextKey(page).None? then [page.data] else [page.data] + Walk(table, filter, NextKey(page).value, limit)
  }

  /**
   Page walk: following nextCursor terminates, and the pages one after the other are the selected rows
   strictly after the cursor, in order; every page but the last is full.
   */
  lemma {:induction false} WalkIsTheSortedTable(table: seq<Row>, filter: Filter, cursor: Key, limit: nat)
    requires DistinctIds(table) && NonemptyIds(table) && cursor.id != "" && 0 < limit
    ensures var pages, all := Walk(table, filter, cursor, limit), Query(table, filter, cursor);
      && Flatten(pages) == all
      && Increasing(all) && (forall r :: r in all <==> r in table && Selected(filter, cursor, r))
      && 1 <= |pages| && |pages[|pages| - 1]| <= limit && (forall i :: 0 <= i < |pages| - 1 ==> |pages[i]| == limit)
    decreases |Query(table, filter, cursor)|
  {
    var all := Query(table, filter, cursor);
    QueryMeaning(table, filter, cursor);
    NextKeyMeaning(table, filter, cursor, limit);
    var pages := Walk(table, filter, cursor, limit);
    if |all| <= limit {
      assert pages == [all] && all[..|all|] == all;
      assert Flatten(pages) == all + Flatten([]);
    } else {
      var next := all[limit - 1].Place();
      WalkIsTheSortedTable(table, filter, next, limit);
      var rest := Walk(table, filter, next, limit);
      assert pages == [all[..limit]] + rest && pages[1..] == rest;
      assert all == all[..limit] + all[limit..];
    }
  }

  // ---------------------------------------------------------------- the walk while the table changes

  /** Rows got so far, and whether the last page said there are no more. */
  datatype Progress = Progress(rows: seq<Row>, ended: bool)

  /** A walk whose i-th request finds the i-th of these tables; rows may come and go between requests. */
  function WalkOver(tables: seq<seq<Row>>, filter: Filter, cursor: Key, limit: nat): Progress {
    if tables == [] then Progress([], false)
    else
      var page := List(tables[0], filter, EncodeCursor(cursor), limit);
      if page.Failure? then Progress([], false)
      else if NextKey(page.value).None? then Progress(page.value.data, !page.value.hasMore)
      else
        var rest := WalkOver(tables[1..], filter, NextKey(page.value).value, limit);
        Progress(page.value.data + rest.rows, rest.ended)
  }

  ghost predicate Throughout(tables: seq<seq<Row>>, row: Row) {
    forall i :: 0 <= i < |tables| ==> row in tables[i]
  }

  ghost predicate Somewhere(tables: seq<seq<Row>>, row: Row) {
    exists i :: 0 <= i < |tables| && row in tables[i]
  }

  /** What a walk from `cursor` promises of the rows it gives. */
  ghost predicate GoodWalk(tables: seq<seq<Row>>, filter: Filter, cursor: Key, walked: Progress) {
    && Increasing(walked.rows)
    && (forall r :: r in walked.rows ==> Selected(filter, cursor, r) && Somewhere(tables, r))
    && (walked.ended ==> forall r :: Throughout(tables, r) && Selected(filter, cursor, r) ==> r in walked.rows)
  }

  /** A page, then rows after its last one, increase throughout. */
  lemma PageThenRest(all: seq<Row>, limit: nat, rest: seq<Row>, filter: Filter)
    requires 0 < limit < |all| && Increasing(all) && Increasing(rest)
    requires forall r :: r in rest ==> Selected(filter, all[limit - 1].Place(), r)
    ensures Increasing(all[..limit] + rest)
  {
    var rows := all[..limit] + rest;
    forall i, j | 0 <= i < j < |rows| ensures Before(rows[i].Place(), rows[j].Place()) {
      if i < limit <= j {
        assert rest[j - limit] in rest;
        if i < limit - 1 {
          BeforeTransitive(rows[i].Place(), all[limit - 1].Place(), rows[j].Place());
        }
      }
    }
  }

  lemma PageThenRestSelected(tables: seq<seq<Row>>, filter: Filter, cursor: Key, limit: nat, rest: Progress)
    requires tables != [] && DistinctIds(tables[0]) && 0 < limit < |Query(tables[0], filter, cursor)|
    requires GoodWalk(tables[1..], filter, Query(tables[0], filter, cursor)[limit - 1].Place(), rest)
    ensures forall r :: r in Query(tables[0], filter, cursor)[..limit] + rest.rows ==>
        Selected(filter, cursor, r) && Somewhere(tables, r)
  {
    var all := Query(tables[0], filter, cursor);
    var last := all[limit - 1];
    QueryMeaning(tables[0], filter, cursor);
    assert last in all;
    forall r | r in all[..limit] + rest.rows ensures Selected(filter, cursor, r) && Somewhere(tables, r) {
      if r in all[..limit] {
        assert r in all && r in tables[0];
      } else {
        assert r in rest.rows;
        BeforeTransitive(cursor, last.Place(), r.Place());
        var i :| 0 <= i < |tables[1..]| && r in tables[1..][i];
        assert r in tables[i + 1];
      }
    }
  }

  lemma PageThenRestComplete(tables: seq<seq<Row>>, filter: Filter, cursor: Key, limit: nat, rest: Progress)
    requires tables != [] && DistinctIds(tables[0]) && 0 < limit < |Query(tables[0], filter, cursor)| && rest.ended
    requires GoodWalk(tables[1..], filter, Query(tables[0], filter, cursor)[limit - 1].Place(), rest)
    ensures forall r :: Throughout(tables, r) && Selected(filter, cursor, r) ==>
        r in Query(tables[0], filter, cursor)[..limit] + rest.rows
  {
    var all := Query(tables[0], filter, cursor);
    QueryMeaning(tables[0], filter, cursor);
    forall r | Throughout(tables, r) && Selected(filter, cursor, r) ensures r in all[..limit] + rest.rows {
      assert r in tables[0] && r in all;
      var i :| 0 <= i < |all| && all[i] == r;
      if i < limit {
        assert all[..limit][i] == r;
      } else {
        assert Selected(filter, all[limit - 1].Place(), r);
        assert forall k :: 0 <= k < |tables[1..]| ==> tables[1..][k] == tables[k + 1];
        assert Throughout(tables[1..], r);
      }
    }
  }

  /**
   While rows are inserted or deleted between pages, the walk still gives rows in strictly increasing order,
   so none repeats; each was selected and in the table; and once it has ended, every selected row that was
   there throughout has been given.
   */
  lemma {:induction false} WalkOverChanges(tables: seq<seq<Row>>, filter: Filter, cursor: Key, limit: nat)
    requires forall i :: 0 <= i < |tables| ==> DistinctIds(tables[i]) && NonemptyIds(tables[i])
    requires cursor.id != "" && 0 < limit
    ensures GoodWalk(tables, filter, cursor, WalkOver(tables, filter, cursor, limit))
  {
    if tables == [] {
    } else {
      var all := Query(tables[0], filter, cursor);
      QueryMeaning(tables[0], filter, cursor);
      NextKeyMeaning(tables[0], filter, cursor, limit);
      if |all| <= limit {
        assert all[..|all|] == all;
        assert tables[0] in tables;
      } else {
        var last := all[limit - 1].Place();
        WalkOverChanges(tables[1..], filter, last, limit);
        var rest := WalkOver(tables[1..], filter, last, limit);
        PageThenRest(all, limit, rest.rows, filter);
        PageThenRestSelected(tables, filter, cursor, limit, rest);
        if rest.ended {
          PageThenRestComplete(tables, filter, cursor, limit, rest);
        }
      }
    }
  }

  /** Over a table that does not change, the two walks are one. */
  lemma {:induction false} WalkOverSameTable(tables: seq<seq<Row>>, table: seq<Row>, filter: Filter, cursor: Key,
      limit: nat)
    requires DistinctIds(table) && NonemptyIds(table) && cursor.id != "" && 0 < limit
    requires forall i :: 0 <= i < |tables| ==> tables[i] == table
    requires |Walk(table, filter, cursor, limit)| <= |tables|
    ensures WalkOver(tables, filter, cursor, limit) == Progress(Query(table, filter, cursor), true)
  {
    var all := Query(table, filter, cursor);
    NextKeyMeaning(table, filter, cursor, limit);
    if |all| <= limit {
      assert all[..|all|] == all;
    } else {
      WalkOverSameTable(tables[1..], table, filter, all[limit - 1].Place(), limit);
      assert all == all[..limit] + all[limit..];
    }
  }
}
