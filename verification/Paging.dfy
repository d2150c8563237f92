/** Keyset pagination over unresolved exceptions (internal/api/server.go, internal/store/mysql.go), followed to the
    end while rows are inserted and resolved between the requests. */
module Paging {
  import opened Sequences

  const MIN_AMOUNT: int := -0x8000_0000_0000_0000

  datatype Row = Row(id: nat, amount: int, resolved: bool)

  datatype Cursor = Cursor(amount: int, id: nat)

  function Key(r: Row): Cursor { Cursor(r.amount, r.id) }

  /** (amount_at_risk_paise, id) < (?, ?). */
  predicate Below(r: Row, c: Cursor) { r.amount < c.amount || (r.amount == c.amount && r.id < c.id) }

  function Listed(cursor: Option<Cursor>): Row -> bool
  {
    (r: Row) => !r.resolved && (cursor.Some? ==> Below(r, cursor.value))
  }

  // ---------------------------------------------------------------- query

  function InsertDesc(x: Row, s: seq<Row>): seq<Row>
  {
    if s == [] || Below(x, Key(s[|s| - 1])) then s + [x]
    else InsertDesc(x, s[..|s| - 1]) + [s[|s| - 1]]
  }

  /** ORDER BY amount_at_risk_paise DESC, id DESC. */
  function SortDesc(s: seq<Row>): seq<Row>
  {
    if s == [] then [] else InsertDesc(s[|s| - 1], SortDesc(s[..|s| - 1]))
  }

  function Take(s: seq<Row>, limit: nat): seq<Row> { if |s| <= limit then s else s[..limit] }

  /** ListUnresolvedExceptions. */
  function ListUnresolved(table: seq<Row>, limit: int, cursor: Option<Cursor>): seq<Row>
  {
    Take(SortDesc(Filter(table, Listed(cursor))), if limit <= 0 then 50 else limit)
  }

  datatype Page = Page(rows: seq<Row>, next: Option<Cursor>)

  /** The page size a request asks for. */
  function PageSize(raw: Option<int>): (limit: nat)
    ensures 1 <= limit <= 200
  {
    if raw.Some? && 0 < raw.value <= 200 then raw.value else 50
  }

  /** The response to one request: one row more than the page is fetched to learn whether another page follows. */
  function PageOf(table: seq<Row>, limit: nat, cursor: Option<Cursor>): Page
    requires limit > 0
  {
    var records := ListUnresolved(table, limit + 1, cursor);
    if |records| > limit then Page(records[..limit], Some(Key(records[limit - 1]))) else Page(records, None)
  }

  /** The cursor parameter of a request: absent, one that does not decode, or one handed out earlier. */
  datatype RawCursor = Absent | Malformed | Decoded(cursor: Cursor)

  function Resume(raw: RawCursor): Option<Cursor> { if raw.Decoded? then Some(raw.cursor) else None }

  /** The cursor parameter a client sends to go on from a response. */
  function Sent(next: Option<Cursor>): RawCursor { if next.Some? then Decoded(next.value) else Absent }

  datatype Response = BadRequest | ServerError | Listing(page: Page)

  /** The response to a request. */
  function Respond(table: seq<Row>, storeFails: bool, rawLimit: Option<int>, raw: RawCursor): Response
  {
    if raw.Malformed? then BadRequest
    else if storeFails then ServerError
    else Listing(PageOf(table, PageSize(rawLimit), Resume(raw)))
  }

  /** listExceptions. */
  method ListExceptions(table: seq<Row>, storeFails: bool, rawLimit: Option<int>, raw: RawCursor)
    returns (response: Response)
    ensures response == Respond(table, storeFails, rawLimit, raw)
    ensures response.BadRequest? <==> raw.Malformed?
    ensures response.ServerError? <==> !raw.Malformed? && storeFails
  {
    var limit := PageSize(rawLimit);
    if raw.Malformed? { return BadRequest; }
    if storeFails { return ServerError; }
    var records := ListUnresolved(table, limit + 1, Resume(raw));
    var hasMore := |records| > limit;
    if hasMore { records := records[..limit]; }
    var exceptions: seq<Row> := [];
    for i := 0 to |records|
      invariant exceptions == records[..i]
    {
      exceptions := exceptions + [records[i]];
    }
    var next: Option<Cursor> := None;
    if hasMore { next := Some(Key(records[|records| - 1])); }
    response := Listing(Page(exceptions, next));
  }

  // ---------------------------------------------------------------- what a query returns

  ghost predicate Descending(s: seq<Row>) { forall i, j :: 0 <= i < j < |s| ==> Below(s[j], Key(s[i])) }

  ghost predicate Distinct(table: seq<Row>) { forall i, j :: 0 <= i < j < |table| ==> table[i].id != table[j].id }

  lemma {:induction false} InsertDescMembers(x: Row, s: seq<Row>)
    ensures forall r :: r in InsertDesc(x, s) <==> r == x || r in s
  {
    if !(s == [] || Below(x, Key(s[|s| - 1]))) {
      InsertDescMembers(x, s[..|s| - 1]);
      assert s == s[..|s| - 1] + [s[|s| - 1]];
    }
  }

  /** Every row of `s` comes before `low`. */
  predicate AllAbove(s: seq<Row>, low: Row) { forall i :: 0 <= i < |s| ==> Below(low, Key(s[i])) }

  lemma {:induction false} InsertDescAbove(x: Row, s: seq<Row>, low: Row)
    requires AllAbove(s, low) && Below(low, Key(x))
    ensures AllAbove(InsertDesc(x, s), low)
  {
    if !(s == [] || Below(x, Key(s[|s| - 1]))) { InsertDescAbove(x, s[..|s| - 1], low); }
  }

  lemma {:induction false} InsertDescKeeps(x: Row, s: seq<Row>)
    requires Descending(s) && forall i :: 0 <= i < |s| ==> s[i].id != x.id
    ensures Descending(InsertDesc(x, s))
  {
    if s == [] || Below(x, Key(s[|s| - 1])) {
      assert AllAbove(s, x) by {
        forall i | 0 <= i < |s| ensures Below(x, Key(s[i])) { assert i == |s| - 1 || Below(s[|s| - 1], Key(s[i])); }
      }
    } else {
      var init, last := s[..|s| - 1], s[|s| - 1];
      InsertDescKeeps(x, init);
      assert AllAbove(init, last);
      InsertDescAbove(x, init, last);
    }
  }

  /** The sorted selection is strictly descending and holds exactly the selected rows. */
  lemma {:induction false} SortedSelection(table: seq<Row>, p: Row -> bool)
    requires Distinct(table)
    ensures Descending(SortDesc(Filter(table, p)))
    ensures forall r :: r in SortDesc(Filter(table, p)) <==> r in table && p(r)
  {
    if table != [] {
      var init, x := table[..|table| - 1], table[|table| - 1];
      SortedSelection(init, p);
      assert table == init + [x];
      var sorted := SortDesc(Filter(init, p));
      if p(x) {
        forall i | 0 <= i < |sorted| ensures sorted[i].id != x.id {
          assert sorted[i] in sorted;
          var k :| 0 <= k < |init| && init[k] == sorted[i];
          assert table[k].id != table[|init|].id;
        }
        InsertDescKeeps(x, sorted);
        InsertDescMembers(x, sorted);
        assert Filter(table, p) == Filter(init, p) + [x];
        assert (Filter(init, p) + [x])[..|Filter(init, p)|] == Filter(init, p);
      } else {
        assert Filter(table, p) == Filter(init, p) + [] == Filter(init, p);
      }
    }
  }

  /** The query returns the first rows of the sorted selection: as many as asked for, 50 if asked for none. */
  lemma QueryReturnsFirst(table: seq<Row>, limit: int, cursor: Option<Cursor>)
    requires Distinct(table)
    ensures var rows, wanted := ListUnresolved(table, limit, cursor), if limit > 0 then limit else 50;
      && Descending(rows)
      && |rows| <= wanted
      && (forall r :: r in rows ==> r in table && !r.resolved && (cursor.Some? ==> Below(r, cursor.value)))
      && (forall r :: r in table && !r.resolved && (cursor.Some? ==> Below(r, cursor.value)) && r !in rows ==>
            |rows| == wanted && Below(r, Key(rows[wanted - 1])))
  {
    var sorted := SortDesc(Filter(table, Listed(cursor)));
    SortedSelection(table, Listed(cursor));
    var rows := ListUnresolved(table, limit, cursor);
    assert rows == sorted[..|rows|];
    hide SortDesc;
    hide Filter;
    forall r | r in table && Listed(cursor)(r) && r !in rows
      ensures |rows| < |sorted| && Below(r, Key(rows[|rows| - 1]))
    {
      assert r in sorted;
      var i :| 0 <= i < |sorted| && sorted[i] == r;
      assert forall j :: 0 <= j < |rows| ==> rows[j] == sorted[j] && rows[j] in rows;
    }
    forall r | r in rows ensures r in table && Listed(cursor)(r) { assert r in sorted; }
  }

  /** What a page holds: in order, nothing but listed rows, and every listed row that is not left for later. */
  lemma PageHolds(table: seq<Row>, limit: nat, cursor: Option<Cursor>)
    requires Distinct(table) && limit > 0
    ensures var page := PageOf(table, limit, cursor);
      && Descending(page.rows)
      && |page.rows| <= limit
      && (forall r :: r in page.rows ==> r in table && Listed(cursor)(r))
      && (page.next.Some? ==> |page.rows| == limit && page.next.value == Key(page.rows[limit - 1]))
      && (forall r :: r in table && Listed(cursor)(r) ==>
            r in page.rows || (page.next.Some? && Below(r, page.next.value)))
  {
    var sorted := SortDesc(Filter(table, Listed(cursor)));
    SortedSelection(table, Listed(cursor));
    var page := PageOf(table, limit, cursor);
    assert page.rows == sorted[..|page.rows|];
    forall r | r in table && Listed(cursor)(r)
      ensures r in page.rows || (page.next.Some? && Below(r, page.next.value))
    {
      assert r in sorted;
      var i :| 0 <= i < |sorted| && sorted[i] == r;
      if i < |page.rows| { assert page.rows[i] == r; }
    }
    forall r | r in page.rows ensures r in table && Listed(cursor)(r) {
      assert r in sorted;
    }
  }

  // ---------------------------------------------------------------- following next_cursor

  /** A table the database can hold: primary keys, 64-bit amounts. */
  ghost predicate Storable(table: seq<Row>)
  {
    Distinct(table) && forall i :: 0 <= i < |table| ==> table[i].amount >= MIN_AMOUNT
  }

  /** What the k-th request finds in the table, and the limit parameter it carries. */
  datatype Requests = Requests(tables: nat -> seq<Row>, limits: nat -> Option<int>)

  ghost predicate Proper(q: Requests) { forall k :: Storable(q.tables(k)) }

  /** The page size of the k-th request. */
  function SizeAt(q: Requests, k: nat): nat { PageSize(q.limits(k)) }

  predicate Startable(cursor: Option<Cursor>) { cursor.Some? ==> cursor.value.amount >= MIN_AMOUNT }

  /** The page in the response to the k-th request, sent to go on from `cursor`. */
  ghost function PageAt(q: Requests, k: nat, cursor: Option<Cursor>): Page
  {
    Respond(q.tables(k), false, q.limits(k), Sent(cursor)).page
  }

  /** The endpoint goes on where the client asks it to. */
  lemma PageAtIs(q: Requests, k: nat, cursor: Option<Cursor>)
    ensures PageAt(q, k, cursor) == PageOf(q.tables(k), SizeAt(q, k), cursor)
  {
  }

  /** What bounds the rest of a walk: whether it has a cursor yet, its amount and its id. */
  function Stage(cursor: Option<Cursor>): nat { if cursor.Some? then 0 else 1 }
  function Height(cursor: Option<Cursor>): int { if cursor.Some? then cursor.value.amount - MIN_AMOUNT else 0 }
  function Rank(cursor: Option<Cursor>): nat { if cursor.Some? then cursor.value.id else 0 }

  ghost predicate Lower(next: Option<Cursor>, cursor: Option<Cursor>)
  {
    Stage(next) < Stage(cursor) || (Stage(next) == Stage(cursor) &&
      (0 <= Height(next) < Height(cursor) || (Height(next) == Height(cursor) && Rank(next) < Rank(cursor))))
  }

  /** The next cursor is lower than the last, lexicographically, and bounded below. */
  lemma NextIsLower(q: Requests, k: nat, cursor: Option<Cursor>)
    requires Proper(q)
    ensures var next := PageAt(q, k, cursor).next; Startable(next) && (next.Some? ==> Lower(next, cursor))
  {
    var table, limit := q.tables(k), SizeAt(q, k);
    PageAtIs(q, k, cursor);
    assert Storable(table);
    PageHolds(table, limit, cursor);
    var page := PageOf(table, limit, cursor);
    if page.next.Some? {
      var last := page.rows[limit - 1];
      assert last in page.rows;
      var i :| 0 <= i < |table| && table[i] == last;
    }
  }

  /** Every page from request `k` on. It ends because the cursor strictly decreases lexicographically and is bounded
      below, whatever happens to the table and to the page size in between. */
  ghost function Walk(q: Requests, k: nat, cursor: Option<Cursor>): (pages: seq<seq<Row>>)
    requires Proper(q) && Startable(cursor)
    ensures |pages| > 0
    decreases Stage(cursor), Height(cursor), Rank(cursor)
  {
    NextIsLower(q, k, cursor);
    var page := PageAt(q, k, cursor);
    [page.rows] + if page.next.Some? then Walk(q, k + 1, page.next) else []
  }

  function Concat(pages: seq<seq<Row>>): seq<Row> { if pages == [] then [] else pages[0] + Concat(pages[1..]) }

  /** The page a returned row came on. */
  lemma {:induction false} PageWith(pages: seq<seq<Row>>, r: Row) returns (i: nat)
    requires r in Concat(pages)
    ensures i < |pages| && r in pages[i]
  {
    if r in pages[0] {
      i := 0;
    } else {
      var j := PageWith(pages[1..], r);
      i := j + 1;
    }
  }

  lemma ConcatCons(page: seq<Row>, rest: seq<seq<Row>>)
    ensures Concat([page] + rest) == page + Concat(rest)
  {
    assert ([page] + rest)[1..] == rest;
  }

  lemma DescendingConcat(a: seq<Row>, b: seq<Row>)
    requires Descending(a) && Descending(b)
    requires a != [] ==> forall r :: r in b ==> Below(r, Key(a[|a| - 1]))
    ensures Descending(a + b)
  {
    forall i, j | 0 <= i < j < |a + b| ensures Below((a + b)[j], Key((a + b)[i])) {
      if i < |a| <= j {
        assert b[j - |a|] in b;
        assert i < |a| - 1 ==> Below(a[|a| - 1], Key(a[i]));
      }
    }
  }

  ghost predicate AllListed(rows: seq<Row>, cursor: Option<Cursor>) { forall r :: r in rows ==> Listed(cursor)(r) }

  /** Every row listed under the cursor is on the page or left for a later one. */
  ghost predicate Covers(table: seq<Row>, cursor: Option<Cursor>, page: Page)
  {
    forall r :: r in table && Listed(cursor)(r) ==> r in page.rows || (page.next.Some? && Listed(page.next)(r))
  }

  predicate Announces(page: Page)
  {
    page.next.Some? ==> page.rows != [] && page.next.value == Key(page.rows[|page.rows| - 1])
  }

  /** PageHolds for one request of a walk. */
  lemma PageAtHolds(q: Requests, k: nat, cursor: Option<Cursor>)
    requires Proper(q)
    ensures var page := PageAt(q, k, cursor);
      && Descending(page.rows)
      && AllListed(page.rows, cursor)
      && Announces(page)
      && Covers(q.tables(k), cursor, page)
  {
    assert Storable(q.tables(k));
    PageAtIs(q, k, cursor);
    PageHolds(q.tables(k), SizeAt(q, k), cursor);
    hide PageOf;
    hide PageAt;
  }

  lemma JoinPages(page: Page, rest: seq<Row>, cursor: Option<Cursor>)
    requires Descending(page.rows) && AllListed(page.rows, cursor) && Announces(page) && page.next.Some?
    requires Descending(rest) && AllListed(rest, page.next)
    ensures Descending(page.rows + rest) && AllListed(page.rows + rest, cursor)
  {
    DescendingConcat(page.rows, rest);
    assert page.rows[|page.rows| - 1] in page.rows;
    hide Descending;
  }

  /** The rows returned over the whole walk are strictly descending, so none comes twice. */
  lemma {:induction false} WalkNeverRepeats(q: Requests, k: nat, cursor: Option<Cursor>)
    requires Proper(q) && Startable(cursor)
    ensures Descending(Concat(Walk(q, k, cursor))) && AllListed(Concat(Walk(q, k, cursor)), cursor)
    decreases Stage(cursor), Height(cursor), Rank(cursor)
  {
    hide *;
    var page := PageAt(q, k, cursor);
    WalkStep(q, k, cursor);
    PageAtHolds(q, k, cursor);
    if page.next.Some? {
      var rest := Walk(q, k + 1, page.next);
      LowerDecreases(page.next, cursor);
      WalkNeverRepeats(q, k + 1, page.next);
      ConcatCons(page.rows, rest);
      JoinPages(page, Concat(rest), cursor);
    } else {
      OnePage(page.rows);
    }
  }

  lemma OnePage(rows: seq<Row>)
    ensures Concat([rows]) == rows && [rows] + [] == [rows]
  {
    ConcatCons(rows, []);
  }

  lemma LowerDecreases(next: Option<Cursor>, cursor: Option<Cursor>)
    requires Lower(next, cursor)
    ensures Stage(next) < Stage(cursor) || (Stage(next) == Stage(cursor) &&
      (0 <= Height(next) < Height(cursor) || (Height(next) == Height(cursor) && Rank(next) < Rank(cursor))))
  {
  }

  lemma WalkStep(q: Requests, k: nat, cursor: Option<Cursor>)
    requires Proper(q) && Startable(cursor)
    ensures var page := PageAt(q, k, cursor);
      && Startable(page.next)
      && (page.next.Some? ==> Lower(page.next, cursor))
      && Walk(q, k, cursor) == [page.rows] + if page.next.Some? then Walk(q, k + 1, page.next) else []
  {
    NextIsLower(q, k, cursor);
  }

  /** Page `i` of the walk from request `k` is page `i - 1` of the walk from request `k + 1`. */
  lemma LaterPage(q: Requests, k: nat, cursor: Option<Cursor>, i: nat)
    requires Proper(q) && Startable(cursor) && 0 < i < |Walk(q, k, cursor)|
    ensures var next := PageAt(q, k, cursor).next;
      && next.Some?
      && Startable(next)
      && |Walk(q, k, cursor)| == |Walk(q, k + 1, next)| + 1
      && Walk(q, k, cursor)[i] == Walk(q, k + 1, next)[i - 1]
  {
    WalkStep(q, k, cursor);
    hide *;
  }

  ghost predicate Live(rows: seq<Row>, table: seq<Row>) { forall r :: r in rows ==> r in table && !r.resolved }

  lemma PageIsLive(q: Requests, k: nat, cursor: Option<Cursor>)
    requires Proper(q)
    ensures Live(PageAt(q, k, cursor).rows, q.tables(k))
  {
    assert Storable(q.tables(k));
    PageAtIs(q, k, cursor);
    PageHolds(q.tables(k), SizeAt(q, k), cursor);
    hide PageOf;
    hide PageAt;
  }

  /** Every returned row was in the table, unresolved, when its page was read. */
  lemma {:induction false} WalkReturnsLiveRows(q: Requests, k: nat, cursor: Option<Cursor>, i: nat)
    requires Proper(q) && Startable(cursor) && i < |Walk(q, k, cursor)|
    ensures Live(Walk(q, k, cursor)[i], q.tables(k + i))
    decreases i
  {
    hide *;
    if i > 0 {
      LaterPage(q, k, cursor, i);
      WalkReturnsLiveRows(q, k + 1, PageAt(q, k, cursor).next, i - 1);
      assert k + 1 + (i - 1) == k + i;
    } else {
      WalkStep(q, k, cursor);
      PageIsLive(q, k, cursor);
    }
  }

  /** A row that stays in the table, unresolved, throughout the walk is returned. */
  lemma {:induction false} WalkIsComplete(q: Requests, k: nat, cursor: Option<Cursor>, r: Row)
    requires Proper(q) && Startable(cursor) && Listed(cursor)(r)
    requires forall i :: k <= i < k + |Walk(q, k, cursor)| ==> r in q.tables(i)
    ensures r in Concat(Walk(q, k, cursor))
    decreases Stage(cursor), Height(cursor), Rank(cursor)
  {
    hide *;
    var page := PageAt(q, k, cursor);
    WalkStep(q, k, cursor);
    PageAtHolds(q, k, cursor);
    assert r in q.tables(k);
    Covered(q.tables(k), cursor, page, r);
    if page.next.Some? {
      var rest := Walk(q, k + 1, page.next);
      LowerDecreases(page.next, cursor);
      ConcatCons(page.rows, rest);
      if r !in page.rows { WalkIsComplete(q, k + 1, page.next, r); }
    } else {
      OnePage(page.rows);
    }
  }

  lemma Covered(table: seq<Row>, cursor: Option<Cursor>, page: Page, r: Row)
    requires Covers(table, cursor, page) && r in table && Listed(cursor)(r)
    ensures r in page.rows || (page.next.Some? && Listed(page.next)(r))
  {
  }

  lemma HasMember(s: seq<Row>)
    requires s != []
    ensures exists r :: r in s
  {
    assert s[0] in s;
  }

  /** Two strictly descending lists of the same rows are the same list. */
  lemma {:induction false} DescendingUnique(a: seq<Row>, b: seq<Row>)
    requires Descending(a) && Descending(b) && forall r :: r in a <==> r in b
    ensures a == b
  {
    if a == [] {
      if b != [] {
        HasMember(b);
        assert false;
      }
    } else {
      assert a[0] in a;
      assert b != [] && b[0] in b;
      var i :| 0 <= i < |b| && b[i] == a[0];
      var j :| 0 <= j < |a| && a[j] == b[0];
      assert a[0] == b[0];
      forall r ensures r in a[1..] <==> r in b[1..] {
        TailMembers(a, r);
        TailMembers(b, r);
      }
      DescendingUnique(a[1..], b[1..]);
    }
  }

  lemma TailMembers(a: seq<Row>, r: Row)
    requires Descending(a) && a != []
    ensures r in a[1..] <==> r in a && r != a[0]
  {
    assert a == [a[0]] + a[1..];
    if r in a[1..] {
      var i :| 0 <= i < |a[1..]| && a[1..][i] == r;
      assert Below(a[i + 1], Key(a[0]));
    }
  }

  // ---------------------------------------------------------------- a table that does not change

  ghost predicate Constant(q: Requests, table: seq<Row>) { forall k :: q.tables(k) == table }

  lemma ConstantTable(q: Requests, table: seq<Row>, k: nat)
    requires Proper(q) && Constant(q, table)
    ensures q.tables(k) == table && Distinct(table)
  {
    assert Storable(q.tables(k));
  }

  lemma StaticWalkHolds(q: Requests, table: seq<Row>, k: nat, cursor: Option<Cursor>, r: Row)
    requires Proper(q) && Constant(q, table) && Startable(cursor)
    ensures r in Concat(Walk(q, k, cursor)) <==> r in table && Listed(cursor)(r)
  {
    WalkNeverRepeats(q, k, cursor);
    if r in table && Listed(cursor)(r) { WalkIsComplete(q, k, cursor, r); }
    if r in Concat(Walk(q, k, cursor)) {
      var i := PageWith(Walk(q, k, cursor), r);
      WalkReturnsLiveRows(q, k, cursor, i);
    }
  }

  /** On a table that does not change the pages put together are the sorted unresolved list, whatever their sizes. */
  lemma StaticWalkIsSortedList(q: Requests, table: seq<Row>, k: nat, cursor: Option<Cursor>)
    requires Proper(q) && Constant(q, table) && Startable(cursor)
    ensures Concat(Walk(q, k, cursor)) == SortDesc(Filter(table, Listed(cursor)))
  {
    ConstantTable(q, table, k);
    SortedSelection(table, Listed(cursor));
    WalkNeverRepeats(q, k, cursor);
    hide Walk;
    hide Proper;
    hide Constant;
    hide Listed;
    forall r ensures r in Concat(Walk(q, k, cursor)) <==> r in SortDesc(Filter(table, Listed(cursor))) {
      StaticWalkHolds(q, table, k, cursor, r);
    }
    DescendingUnique(Concat(Walk(q, k, cursor)), SortDesc(Filter(table, Listed(cursor))));
  }

  // ---------------------------------------------------------------- full and empty pages

  lemma AnnouncingPageIsFull(q: Requests, k: nat, cursor: Option<Cursor>)
    requires Proper(q) && PageAt(q, k, cursor).next.Some?
    ensures |PageAt(q, k, cursor).rows| == SizeAt(q, k)
  {
    PageAtIs(q, k, cursor);
    hide SortDesc;
  }

  lemma {:induction false} PagesHaveSize(q: Requests, k: nat, cursor: Option<Cursor>, i: nat)
    requires Proper(q) && Startable(cursor) && i < |Walk(q, k, cursor)| - 1
    ensures |Walk(q, k, cursor)[i]| == SizeAt(q, k + i)
    decreases i
  {
    hide *;
    if i > 0 {
      LaterPage(q, k, cursor, i);
      PagesHaveSize(q, k + 1, PageAt(q, k, cursor).next, i - 1);
      assert k + 1 + (i - 1) == k + i;
    } else {
      WalkStep(q, k, cursor);
      AnnouncingPageIsFull(q, k, cursor);
    }
  }

  /** Every page but the last is full: it has as many rows as the request's limit if that is from 1 to 200, else 50. */
  lemma PagesAreFull(q: Requests, k: nat, cursor: Option<Cursor>, i: nat)
    requires Proper(q) && Startable(cursor) && i < |Walk(q, k, cursor)| - 1
    ensures var limit := q.limits(k + i);
      |Walk(q, k, cursor)[i]| == if limit.Some? && 1 <= limit.value <= 200 then limit.value else 50
  {
    hide *;
    PagesHaveSize(q, k, cursor, i);
    SizeAtIs(q, k + i);
  }

  lemma SizeAtIs(q: Requests, k: nat)
    ensures var limit := q.limits(k);
      SizeAt(q, k) == if limit.Some? && 1 <= limit.value <= 200 then limit.value else 50
  {
  }

  /** The cursor the request for page `i` carries. */
  ghost function CursorAt(q: Requests, k: nat, cursor: Option<Cursor>, i: nat): Option<Cursor>
    requires Proper(q) && Startable(cursor) && i < |Walk(q, k, cursor)|
    decreases i
  {
    if i == 0 then cursor
    else
      LaterPage(q, k, cursor, i);
      CursorAt(q, k + 1, PageAt(q, k, cursor).next, i - 1)
  }

  lemma PageIsEmptyIff(q: Requests, k: nat, cursor: Option<Cursor>)
    requires Proper(q)
    ensures PageAt(q, k, cursor).rows == [] <==> Filter(q.tables(k), Listed(cursor)) == []
  {
    assert Storable(q.tables(k));
    PageAtIs(q, k, cursor);
    if PageAt(q, k, cursor).rows == [] { NothingListed(q.tables(k), SizeAt(q, k), cursor); }
  }

  lemma CursorLater(q: Requests, k: nat, cursor: Option<Cursor>, i: nat)
    requires Proper(q) && Startable(cursor) && 0 < i < |Walk(q, k, cursor)|
    ensures var next := PageAt(q, k, cursor).next;
      && Startable(next)
      && i - 1 < |Walk(q, k + 1, next)|
      && CursorAt(q, k, cursor, i) == CursorAt(q, k + 1, next, i - 1)
  {
    LaterPage(q, k, cursor, i);
    hide Walk;
    hide PageAt;
  }

  lemma CursorFirst(q: Requests, k: nat, cursor: Option<Cursor>)
    requires Proper(q) && Startable(cursor)
    ensures |Walk(q, k, cursor)| > 0 && CursorAt(q, k, cursor, 0) == cursor
  {
  }

  /** A page is empty exactly when no row of the table at that moment is listed under its cursor; it is then the
      last. */
  lemma {:induction false} EmptyPageIff(q: Requests, k: nat, cursor: Option<Cursor>, i: nat)
    requires Proper(q) && Startable(cursor) && i < |Walk(q, k, cursor)|
    ensures Walk(q, k, cursor)[i] == [] <==> Filter(q.tables(k + i), Listed(CursorAt(q, k, cursor, i))) == []
    ensures Walk(q, k, cursor)[i] == [] ==> i == |Walk(q, k, cursor)| - 1
    decreases i
  {
    hide *;
    if i < |Walk(q, k, cursor)| - 1 { PagesAreFull(q, k, cursor, i); }
    if i > 0 {
      LaterPage(q, k, cursor, i);
      CursorLater(q, k, cursor, i);
      EmptyPageIff(q, k + 1, PageAt(q, k, cursor).next, i - 1);
      assert k + 1 + (i - 1) == k + i;
    } else {
      WalkStep(q, k, cursor);
      CursorFirst(q, k, cursor);
      PageIsEmptyIff(q, k, cursor);
    }
  }

  /** On a table that does not change no page is empty, unless there is nothing to list at all. */
  lemma {:induction false} StaticPagesAreNotEmpty(q: Requests, table: seq<Row>, k: nat, cursor: Option<Cursor>, i: nat)
    requires Proper(q) && Constant(q, table) && Startable(cursor) && i < |Walk(q, k, cursor)|
    ensures Walk(q, k, cursor)[i] == [] <==> i == 0 && Filter(table, Listed(cursor)) == []
    decreases i
  {
    ConstantTable(q, table, k);
    hide *;
    if i == 0 {
      CursorFirst(q, k, cursor);
      EmptyPageIff(q, k, cursor, 0);
    } else {
      LaterPage(q, k, cursor, i);
      MoreAtIsListed(q, k, cursor);
      StaticPagesAreNotEmpty(q, table, k + 1, PageAt(q, k, cursor).next, i - 1);
    }
  }

  lemma NothingListed(table: seq<Row>, limit: nat, cursor: Option<Cursor>)
    requires Distinct(table) && limit > 0 && PageOf(table, limit, cursor).rows == []
    ensures Filter(table, Listed(cursor)) == []
  {
    PageHolds(table, limit, cursor);
    FilterMembers(table, Listed(cursor));
    var f := Filter(table, Listed(cursor));
    if f != [] {
      HasMember(f);
      assert false;
    }
  }

  /** A next cursor is only handed out when a row below it exists. */
  lemma MoreIsListed(table: seq<Row>, limit: nat, cursor: Option<Cursor>)
    requires Distinct(table) && limit > 0 && PageOf(table, limit, cursor).next.Some?
    ensures Filter(table, Listed(PageOf(table, limit, cursor).next)) != []
  {
    SortedSelection(table, Listed(cursor));
    var sorted, next := SortDesc(Filter(table, Listed(cursor))), PageOf(table, limit, cursor).next;
    var extra := sorted[limit];
    assert extra in sorted && Below(extra, Key(sorted[limit - 1]));
    FilterMembers(table, Listed(next));
    assert Listed(next)(extra);
  }

  lemma MoreAtIsListed(q: Requests, k: nat, cursor: Option<Cursor>)
    requires Proper(q) && PageAt(q, k, cursor).next.Some?
    ensures Filter(q.tables(k), Listed(PageAt(q, k, cursor).next)) != []
  {
    assert Storable(q.tables(k));
    PageAtIs(q, k, cursor);
    MoreIsListed(q.tables(k), SizeAt(q, k), cursor);
  }

  lemma TwoRowsSorted()
    ensures var newer, older := Row(2, 0, false), Row(1, 0, false); SortDesc([older, newer]) == [newer, older]
  {
    var newer, older := Row(2, 0, false), Row(1, 0, false);
    assert [older, newer][..1] == [older] && [older][..0] == [];
    assert InsertDesc(older, []) == [older] && InsertDesc(newer, []) == [newer];
    assert SortDesc([older]) == [older];
    assert InsertDesc(newer, [older]) == [newer, older];
  }

  lemma TwoRowsFirstPage()
    ensures PageOf([Row(1, 0, false), Row(2, 0, false)], 1, None) == Page([Row(2, 0, false)], Some(Cursor(0, 2)))
  {
    var table := [Row(1, 0, false), Row(2, 0, false)];
    FilterEverything(table, Listed(None));
    TwoRowsSorted();
    hide SortDesc;
    hide Filter;
  }

  lemma NothingToShow(table: seq<Row>, limit: nat, cursor: Option<Cursor>)
    requires limit > 0 && forall i :: 0 <= i < |table| ==> !Listed(cursor)(table[i])
    ensures PageOf(table, limit, cursor) == Page([], None)
  {
    FilterNone(table, Listed(cursor));
  }

  lemma TwoPages(q: Requests, first: seq<Row>, next: Cursor)
    requires Proper(q)
    requires PageAt(q, 0, None) == Page(first, Some(next)) && PageAt(q, 1, Some(next)) == Page([], None)
    ensures Walk(q, 0, None) == [first, []]
  {
    WalkStep(q, 0, None);
    WalkStep(q, 1, Some(next));
    hide Walk;
    hide PageAt;
  }

  /** On a changing table that does happen: the rows announced may be resolved in the meantime. */
  lemma EmptyLastPage() returns (q: Requests)
    ensures Proper(q) && Walk(q, 0, None) == [[Row(2, 0, false)], []]
  {
    hide Walk;
    hide PageOf;
    var before, after := [Row(1, 0, false), Row(2, 0, false)], [Row(1, 0, true), Row(2, 0, false)];
    q := Requests((k: nat) => if k == 0 then before else after, (k: nat) => Some(1));
    assert Storable(before) && Storable(after);
    TwoRowsFirstPage();
    NothingToShow(after, 1, Some(Cursor(0, 2)));
    PageAtIs(q, 0, None);
    PageAtIs(q, 1, Some(Cursor(0, 2)));
    hide PageAt;
    TwoPages(q, [Row(2, 0, false)], Cursor(0, 2));
  }
}
