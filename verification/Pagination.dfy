/** Keyset pages over the leave-request table by their positions; the table may change between two
    pages. `LeaveListing` puts the signed cursors on top. */
module Pagination {
  import opened Wrappers
  import opened Ordering
  import C = Cursor

  type Time = C.Time
  type Uuid = C.Uuid
  type Positive = n: nat | n >= 1 witness 1

  datatype Row = Row(requestId: Uuid, employee: string, entity: string, status: string, startDate: int,
                     submitted: Time)
  datatype Query = Query(employee: string, entities: seq<string>, statuses: seq<string>,
                         startFrom: Option<int>, startTo: Option<int>)
  datatype Page = Page(items: seq<Row>, next: Option<C.Position>)

  /** The primary key of the table. */
  ghost predicate Table(rows: seq<Row>) {
    forall i, j | 0 <= i < j < |rows| :: rows[i].requestId != rows[j].requestId
  }

  // --- the query -----------------------------------------------------------------------------

  predicate Matches(row: Row, q: Query) {
    && row.employee == q.employee && row.entity in q.entities
    && (q.statuses == [] || row.status in q.statuses)
    && (q.startFrom.Some? ==> row.startDate >= q.startFrom.value)
    && (q.startTo.Some? ==> row.startDate <= q.startTo.value)
  }

  /** Newest first, then by request id. */
  predicate Goes(a: Row, b: Row) {
    a.submitted > b.submitted || (a.submitted == b.submitted && a.requestId <= b.requestId)
  }

  predicate After(row: Row, at: Option<C.Position>) {
    at.None? || row.submitted < at.value.submitted
    || (row.submitted == at.value.submitted && row.requestId > at.value.requestId)
  }

  predicate Selected(row: Row, q: Query, ceiling: Time, at: Option<C.Position>) {
    Matches(row, q) && row.submitted <= ceiling && After(row, at)
  }

  function Select(rows: seq<Row>, q: Query, ceiling: Time, at: Option<C.Position>): seq<Row> {
    if rows == [] then []
    else
      var rest := Select(rows[1..], q, ceiling, at);
      if Selected(rows[0], q, ceiling, at) then [rows[0]] + rest else rest
  }

  /** The whole ordered result, before the limit. */
  function Answer(rows: seq<Row>, q: Query, ceiling: Time, at: Option<C.Position>): seq<Row> {
    Sort(Select(rows, q, ceiling, at), Goes)
  }

  function Shorter(a: nat, b: nat): nat {
    if a < b then a else b
  }

  function PageOf(rows: seq<Row>, q: Query, ceiling: Time, at: Option<C.Position>, limit: Positive): Page {
    var all := Answer(rows, q, ceiling, at);
    var items := all[..Shorter(limit, |all|)];
    Page(items, if |all| > limit then Some(C.Position(ceiling, items[limit - 1].submitted, items[limit - 1].requestId))
                else None)
  }

  // --- the ordered answer --------------------------------------------------------------------

  lemma {:induction false} SelectMembers(rows: seq<Row>, q: Query, ceiling: Time, at: Option<C.Position>)
    ensures forall r :: r in Select(rows, q, ceiling, at) <==> r in rows && Selected(r, q, ceiling, at)
  {
    if rows != [] {
      hide Selected;
      SelectMembers(rows[1..], q, ceiling, at);
      assert forall r :: r in rows <==> r == rows[0] || r in rows[1..];
    }
  }

  lemma {:induction false} NobodySelected(rows: seq<Row>, q: Query, ceiling: Time, at: Option<C.Position>)
    requires q.entities == []
    ensures Select(rows, q, ceiling, at) == []
  {
    if rows != [] {
      NobodySelected(rows[1..], q, ceiling, at);
    }
  }

  lemma {:induction false} SelectTable(rows: seq<Row>, q: Query, ceiling: Time, at: Option<C.Position>)
    requires Table(rows)
    ensures Table(Select(rows, q, ceiling, at))
  {
    if rows != [] {
      SelectTable(rows[1..], q, ceiling, at);
      SelectMembers(rows[1..], q, ceiling, at);
      hide Selected;
      forall r | r in rows[1..]
        ensures r.requestId != rows[0].requestId
      {
        var i :| 0 <= i < |rows[1..]| && rows[1..][i] == r;
        assert rows[i + 1] == r;
      }
    }
  }

  lemma GoesIsOrder(s: seq<Row>)
    requires forall r, t | r in s && t in s && r.requestId == t.requestId :: r == t
    ensures OrderOn(s, Goes) && NoTies(s, Goes)
  {
  }

  lemma TableIds(s: seq<Row>)
    requires Table(s)
    ensures Distinct(s) && forall r, t | r in s && t in s && r.requestId == t.requestId :: r == t
  {
  }

  /** Strictly increasing in the key order, so no key twice. */
  ghost predicate Ascending(s: seq<Row>) {
    forall i, j | 0 <= i < j < |s| :: Goes(s[i], s[j]) && s[i].requestId != s[j].requestId
  }

  lemma AnswerAscends(rows: seq<Row>, q: Query, ceiling: Time, at: Option<C.Position>)
    requires Table(rows)
    ensures Ascending(Answer(rows, q, ceiling, at))
    ensures forall r :: r in Answer(rows, q, ceiling, at) <==> r in rows && Selected(r, q, ceiling, at)
  {
    var s := Select(rows, q, ceiling, at);
    SelectTable(rows, q, ceiling, at);
    SelectMembers(rows, q, ceiling, at);
    TableIds(s);
    GoesIsOrder(s);
    SortSorts(s, Goes);
    var a := Sort(s, Goes);
    SameElements(a, s);
    PermutationDistinct(s, a);
    hide Sort, Select, Selected, Table;
    forall i, j | 0 <= i < j < |a|
      ensures a[i].requestId != a[j].requestId
    {
      assert a[i] in s && a[j] in s && a[i] != a[j];
    }
  }

  /** What a listing is asked for: the employee's requests in the authorised entities, with one of
      the statuses when there are any, starting within the dates that are given. */
  ghost predicate Asked(r: Row, q: Query) {
    && r.employee == q.employee
    && (exists i :: 0 <= i < |q.entities| && q.entities[i] == r.entity)
    && (|q.statuses| > 0 ==> exists i :: 0 <= i < |q.statuses| && q.statuses[i] == r.status)
    && (forall day | q.startFrom == Some(day) :: day <= r.startDate)
    && (forall day | q.startTo == Some(day) :: r.startDate <= day)
  }

  lemma AskedIff(r: Row, q: Query)
    ensures Matches(r, q) <==> Asked(r, q)
  {
  }

  /** Later submissions first; of two at the same time, the smaller request id. */
  ghost predicate NewestFirst(s: seq<Row>) {
    forall i, j | 0 <= i < j < |s| ::
      s[j].submitted < s[i].submitted || (s[j].submitted == s[i].submitted && s[i].requestId < s[j].requestId)
  }

  /** The answer holds exactly the rows that were asked for, up to the ceiling and after the
      position, newest first, each once. */
  lemma AnswerIs(rows: seq<Row>, q: Query, ceiling: Time, at: Option<C.Position>)
    requires Table(rows)
    ensures NewestFirst(Answer(rows, q, ceiling, at))
    ensures forall r :: r in Answer(rows, q, ceiling, at) <==>
      r in rows && Asked(r, q) && r.submitted <= ceiling
      && (at.Some? ==> r.submitted < at.value.submitted
                       || (r.submitted == at.value.submitted && r.requestId > at.value.requestId))
  {
    AnswerAscends(rows, q, ceiling, at);
    AscendingKeys(Answer(rows, q, ceiling, at));
    hide Answer, Selected, Asked, Table;
    forall r
      ensures Selected(r, q, ceiling, at) <==> Asked(r, q) && r.submitted <= ceiling && After(r, at)
    {
      SelectedIff(r, q, ceiling, at);
    }
    KeysNewestFirst(Answer(rows, q, ceiling, at), Answer(rows, q, ceiling, at));
  }

  // --- a fixed table -------------------------------------------------------------------------

  /** The position right after row `r`. */
  function Behind(r: Row, ceiling: Time): Option<C.Position> {
    Some(C.Position(ceiling, r.submitted, r.requestId))
  }

  /** Two ascending sequences with the same members are equal. */
  lemma AscendingUnique(a: seq<Row>, b: seq<Row>)
    requires Ascending(a) && Ascending(b) && forall r :: r in a <==> r in b
    ensures a == b
  {
    assert Distinct(a) && Distinct(b);
    forall x
      ensures multiset(a)[x] == multiset(b)[x]
    {
      DistinctCount(a, x);
      DistinctCount(b, x);
    }
    forall r, t | r in a && t in a && r.requestId == t.requestId
      ensures r == t
    {
      var i :| 0 <= i < |a| && a[i] == r;
      var j :| 0 <= j < |a| && a[j] == t;
    }
    GoesIsOrder(a);
    SortedUnique(a, b, Goes);
  }

  /** What comes after the `k`-th row of an answer is exactly the rest of it. */
  lemma RestOfAnswer(rows: seq<Row>, q: Query, ceiling: Time, at: Option<C.Position>, k: nat)
    requires Table(rows) && 1 <= k <= |Answer(rows, q, ceiling, at)|
    ensures var all := Answer(rows, q, ceiling, at);
      Answer(rows, q, ceiling, Behind(all[k - 1], ceiling)) == all[k..]
  {
    var all := Answer(rows, q, ceiling, at);
    var last := all[k - 1];
    var rest := Answer(rows, q, ceiling, Behind(last, ceiling));
    AnswerAscends(rows, q, ceiling, at);
    AnswerAscends(rows, q, ceiling, Behind(last, ceiling));
    hide Answer, Matches, Table;
    assert last in all;
    assert forall i | k <= i < |all| :: all[k..][i - k] == all[i];
    forall r
      ensures r in rest <==> r in all[k..]
    {
      if r in all[k..] {
        var i :| k <= i < |all| && all[i] == r;
        assert Goes(all[k - 1], all[i]) && all[i] in all;
      }
      if r in rest {
        assert After(r, at) by { AfterTransitive(r, last, ceiling, at); }
        assert r in all;
        var i :| 0 <= i < |all| && all[i] == r;
        assert i < k - 1 ==> Goes(all[i], all[k - 1]);
        assert i >= k;
        assert r == all[k..][i - k];
      }
    }
    assert Ascending(all[k..]);
    AscendingUnique(rest, all[k..]);
  }

  lemma AfterTransitive(r: Row, last: Row, ceiling: Time, at: Option<C.Position>)
    requires After(last, at) && After(r, Behind(last, ceiling))
    ensures After(r, at)
  {
  }

  /** How many pages `n` rows need; the first page comes even when there is nothing. */
  function PageCount(n: nat, limit: Positive): nat {
    if n <= limit then 1 else 1 + PageCount(n - limit, limit)
  }

  lemma PageCountStep(n: nat, limit: Positive)
    ensures PageCount(n, limit) == if n <= limit then 1 else 1 + PageCount(n - limit, limit)
  {
  }

  /** The least positive number of pages with room for `n` rows. */
  predicate Needed(pages: nat, n: nat, limit: Positive) {
    pages >= 1 && n <= pages * limit && (pages == 1 || (pages - 1) * limit < n)
  }

  lemma {:induction false} PageCountIsNeeded(n: nat, limit: Positive)
    ensures Needed(PageCount(n, limit), n, limit)
  {
    if n > limit {
      PageCountIsNeeded(n - limit, limit);
      var p := PageCount(n - limit, limit);
      OneMorePage(p, n - limit, limit);
    }
  }

  lemma OneMorePage(p: nat, n: nat, limit: Positive)
    requires Needed(p, n, limit) && n >= 1
    ensures Needed(p + 1, n + limit, limit)
  {
    assert (p + 1) * limit == p * limit + limit;
    assert p * limit == (p - 1) * limit + limit;
  }

  lemma PageParts(rows: seq<Row>, q: Query, ceiling: Time, at: Option<C.Position>, limit: Positive)
    ensures var all := Answer(rows, q, ceiling, at);
      var page := PageOf(rows, q, ceiling, at, limit);
      if |all| <= limit then page == Page(all, None)
      else page == Page(all[..limit], Behind(all[limit - 1], ceiling)) && page.next.Some?
  {
    hide Answer;
    var all := Answer(rows, q, ceiling, at);
    assert |all| <= limit ==> all[..|all|] == all;
  }

  // --- a changing table ----------------------------------------------------------------------

  /** The rows delivered while the table goes through `tables`, one state for each page. */
  function Delivered(tables: seq<seq<Row>>, q: Query, ceiling: Time, at: Option<C.Position>, limit: Positive): seq<Row> {
    if tables == [] then []
    else
      var page := PageOf(tables[0], q, ceiling, at, limit);
      if page.next.None? then page.items
      else page.items + Delivered(tables[1..], q, ceiling, page.next, limit)
  }

  /** How many pages that takes. */
  function Taken(tables: seq<seq<Row>>, q: Query, ceiling: Time, at: Option<C.Position>, limit: Positive): nat {
    if tables == [] then 0
    else
      var next := PageOf(tables[0], q, ceiling, at, limit).next;
      if next.None? then 1 else 1 + Taken(tables[1..], q, ceiling, next, limit)
  }

  /** The listing reached a page without a cursor. */
  predicate Finished(tables: seq<seq<Row>>, q: Query, ceiling: Time, at: Option<C.Position>, limit: Positive) {
    tables != []
    && (PageOf(tables[0], q, ceiling, at, limit).next.None?
        || Finished(tables[1..], q, ceiling, PageOf(tables[0], q, ceiling, at, limit).next, limit))
  }

  ghost predicate AllTables(tables: seq<seq<Row>>) {
    forall i | 0 <= i < |tables| :: Table(tables[i])
  }

  /** Later keys are strictly greater. */
  predicate Precedes(a: Row, b: Row) {
    a.submitted > b.submitted || (a.submitted == b.submitted && a.requestId < b.requestId)
  }

  ghost predicate KeysAscend(s: seq<Row>) {
    forall i, j | 0 <= i < j < |s| :: Precedes(s[i], s[j])
  }

  lemma PageFacts(rows: seq<Row>, q: Query, ceiling: Time, at: Option<C.Position>, limit: Positive)
    requires Table(rows)
    ensures var page := PageOf(rows, q, ceiling, at, limit);
      && Ascending(page.items) && KeysAscend(page.items) && |page.items| <= limit
      && (forall r | r in page.items :: r in rows && Selected(r, q, ceiling, at))
      && (page.next.Some? ==> page.items != [] && page.next == Behind(page.items[|page.items| - 1], ceiling))
      && (forall r | r in rows && Selected(r, q, ceiling, at) && r !in page.items ::
            page.next.Some? && After(r, page.next))
  {
    var all := Answer(rows, q, ceiling, at);
    var page := PageOf(rows, q, ceiling, at, limit);
    AnswerAscends(rows, q, ceiling, at);
    PageParts(rows, q, ceiling, at, limit);
    hide Answer, PageOf, Selected, Table, After, Precedes, Goes;
    if |all| > limit {
      FirstRows(all, limit);
      assert forall r | r in all && r !in page.items :: After(r, Behind(all[limit - 1], ceiling)) by {
        forall r | r in all && r !in page.items
          ensures After(r, Behind(all[limit - 1], ceiling))
        {
          LeftBehind(all, limit, ceiling, r);
        }
      }
    } else {
      AscendingKeys(all);
    }
  }

  lemma AscendingKeys(all: seq<Row>)
    requires Ascending(all)
    ensures KeysAscend(all)
  {
  }

  lemma FirstRows(all: seq<Row>, n: nat)
    requires Ascending(all) && n <= |all|
    ensures Ascending(all[..n]) && KeysAscend(all[..n]) && forall r | r in all[..n] :: r in all
  {
    AscendingKeys(all);
  }

  lemma LeftBehind(all: seq<Row>, limit: Positive, ceiling: Time, r: Row)
    requires Ascending(all) && limit < |all| && r in all && r !in all[..limit]
    ensures After(r, Behind(all[limit - 1], ceiling))
  {
    assert forall k | 0 <= k < limit :: all[k] in all[..limit];
    var i :| 0 <= i < |all| && all[i] == r;
    assert Goes(all[limit - 1], all[i]);
  }

  /** While the table stays the same and there are enough calls, everything is delivered. */
  lemma {:induction false} DeliveredCovers(tables: seq<seq<Row>>, rows: seq<Row>, q: Query, ceiling: Time,
                                           at: Option<C.Position>, limit: Positive)
    requires Table(rows) && forall i | 0 <= i < |tables| :: tables[i] == rows
    requires |tables| >= PageCount(|Answer(rows, q, ceiling, at)|, limit)
    ensures Delivered(tables, q, ceiling, at, limit) == Answer(rows, q, ceiling, at)
    ensures Finished(tables, q, ceiling, at, limit)
    ensures Taken(tables, q, ceiling, at, limit) == PageCount(|Answer(rows, q, ceiling, at)|, limit)
    decreases |tables|
  {
    var all := Answer(rows, q, ceiling, at);
    var page := PageOf(rows, q, ceiling, at, limit);
    PageParts(rows, q, ceiling, at, limit);
    hide Answer, PageOf, Table;
    assert tables[0] == rows;
    if |all| > limit {
      RestOfAnswer(rows, q, ceiling, at, limit);
      DeliveredCovers(tables[1..], rows, q, ceiling, page.next, limit);
      assert all == all[..limit] + all[limit..];
    }
  }

  /** Every row that is delivered lies after the position, and keys strictly ascend across all
      pages, whatever happens to the table between them. */
  lemma {:induction false} DeliveredAscends(tables: seq<seq<Row>>, q: Query, ceiling: Time, at: Option<C.Position>,
                                            limit: Positive)
    requires AllTables(tables)
    ensures var s := Delivered(tables, q, ceiling, at, limit);
      KeysAscend(s) && forall r | r in s :: Selected(r, q, ceiling, at)
  {
    hide Selected;
    if tables != [] {
      var page := PageOf(tables[0], q, ceiling, at, limit);
      assert Table(tables[0]);
      PageFacts(tables[0], q, ceiling, at, limit);
      if page.next.Some? {
        assert AllTables(tables[1..]);
        DeliveredAscends(tables[1..], q, ceiling, page.next, limit);
        Appended(page, Delivered(tables[1..], q, ceiling, page.next, limit), q, ceiling, at);
      }
    }
  }

  lemma Appended(page: Page, rest: seq<Row>, q: Query, ceiling: Time, at: Option<C.Position>)
    requires page.items != [] && KeysAscend(page.items) && KeysAscend(rest)
    requires page.next == Behind(page.items[|page.items| - 1], ceiling)
    requires forall r | r in page.items :: Selected(r, q, ceiling, at)
    requires forall r | r in rest :: Selected(r, q, ceiling, page.next)
    ensures KeysAscend(page.items + rest)
    ensures forall r | r in page.items + rest :: Selected(r, q, ceiling, at)
  {
    hide Matches;
    var last := page.items[|page.items| - 1];
    assert last in page.items;
    forall r | r in rest
      ensures Precedes(last, r) && Selected(r, q, ceiling, at)
    {
      AfterTransitive(r, last, ceiling, at);
    }
    var s := page.items + rest;
    forall i, j | 0 <= i < j < |s|
      ensures Precedes(s[i], s[j])
    {
      if i < |page.items| <= j {
        assert s[j] in rest;
        assert i < |page.items| - 1 ==> Precedes(page.items[i], last);
      }
    }
  }

  lemma SelectedIff(r: Row, q: Query, ceiling: Time, at: Option<C.Position>)
    ensures Selected(r, q, ceiling, at) <==> Asked(r, q) && r.submitted <= ceiling && After(r, at)
  {
    AskedIff(r, q);
  }

  lemma KeysNewestFirst(s: seq<Row>, all: seq<Row>)
    requires KeysAscend(all) && |s| <= |all| && forall i | 0 <= i < |s| :: s[i] == all[i]
    ensures NewestFirst(s)
  {
  }

  /** With rows coming and going between pages, no row that keeps its key comes twice. */
  lemma NeverTwice(tables: seq<seq<Row>>, q: Query, ceiling: Time, limit: Positive, i: nat, j: nat)
    requires AllTables(tables)
    requires var s := Delivered(tables, q, ceiling, None, limit);
      i < j < |s| && s[i].requestId == s[j].requestId
    ensures var s := Delivered(tables, q, ceiling, None, limit);
      s[i].submitted != s[j].submitted
  {
    DeliveredAscends(tables, q, ceiling, None, limit);
    hide Delivered, AllTables;
  }

  /** A matching row with this key. */
  ghost predicate HasKey(rows: seq<Row>, q: Query, id: Uuid, submitted: Time) {
    exists r :: r in rows && r.requestId == id && r.submitted == submitted && Matches(r, q)
  }

  /** Every state of the table has a matching row with this key, whatever else changes in it. */
  ghost predicate KeyStays(tables: seq<seq<Row>>, q: Query, id: Uuid, submitted: Time) {
    forall i | 0 <= i < |tables| :: HasKey(tables[i], q, id, submitted)
  }

  lemma {:induction false} Reached(tables: seq<seq<Row>>, q: Query, ceiling: Time, at: Option<C.Position>,
                                   limit: Positive, id: Uuid, submitted: Time)
    requires AllTables(tables) && KeyStays(tables, q, id, submitted) && submitted <= ceiling
    requires at.None? || submitted < at.value.submitted
             || (submitted == at.value.submitted && id > at.value.requestId)
    requires Finished(tables, q, ceiling, at, limit)
    ensures exists r :: r in Delivered(tables, q, ceiling, at, limit) && r.requestId == id && r.submitted == submitted
  {
    var page := PageOf(tables[0], q, ceiling, at, limit);
    assert Table(tables[0]) && HasKey(tables[0], q, id, submitted);
    var r :| r in tables[0] && r.requestId == id && r.submitted == submitted && Matches(r, q);
    PageFacts(tables[0], q, ceiling, at, limit);
    assert Selected(r, q, ceiling, at);
    if r in page.items {
      assert r in Delivered(tables, q, ceiling, at, limit);
    } else {
      assert AllTables(tables[1..]) && KeyStays(tables[1..], q, id, submitted);
      Reached(tables[1..], q, ceiling, page.next, limit, id, submitted);
    }
  }

  /** Every delivered row comes from some state of the table. */
  lemma {:induction false} DeliveredFromTables(tables: seq<seq<Row>>, q: Query, ceiling: Time, at: Option<C.Position>,
                                               limit: Positive, r: Row)
    requires AllTables(tables) && r in Delivered(tables, q, ceiling, at, limit)
    ensures exists i | 0 <= i < |tables| :: r in tables[i]
  {
    var page := PageOf(tables[0], q, ceiling, at, limit);
    assert Table(tables[0]);
    PageFacts(tables[0], q, ceiling, at, limit);
    if r !in page.items {
      assert AllTables(tables[1..]);
      DeliveredFromTables(tables[1..], q, ceiling, page.next, limit, r);
      var i :| 0 <= i < |tables[1..]| && r in tables[1..][i];
      assert tables[1..][i] == tables[i + 1];
    }
  }

  /** A row that keeps its key and matches throughout comes from a state where it has that key. */
  lemma SameKey(tables: seq<seq<Row>>, q: Query, ceiling: Time, limit: Positive, id: Uuid, submitted: Time, r: Row)
    requires AllTables(tables) && KeyStays(tables, q, id, submitted)
    requires r in Delivered(tables, q, ceiling, None, limit) && r.requestId == id
    ensures r.submitted == submitted
  {
    DeliveredFromTables(tables, q, ceiling, None, limit, r);
    var i :| 0 <= i < |tables| && r in tables[i];
    assert Table(tables[i]) && HasKey(tables[i], q, id, submitted);
    TableIds(tables[i]);
  }

  /** A row that keeps its key and matches in every state of a finished listing, and that was
      submitted by the ceiling, is delivered exactly once. */
  lemma ExactlyOnce(tables: seq<seq<Row>>, q: Query, ceiling: Time, limit: Positive, id: Uuid, submitted: Time)
    requires AllTables(tables) && KeyStays(tables, q, id, submitted) && submitted <= ceiling
    requires Finished(tables, q, ceiling, None, limit)
    ensures var s := Delivered(tables, q, ceiling, None, limit);
      exists k :: IsOnly(s, k, id) && s[k].submitted == submitted
  {
    var s := Delivered(tables, q, ceiling, None, limit);
    Reached(tables, q, ceiling, None, limit, id, submitted);
    DeliveredAscends(tables, q, ceiling, None, limit);
    hide Delivered, Finished, AllTables, KeyStays;
    var r :| r in s && r.requestId == id && r.submitted == submitted;
    var k :| 0 <= k < |s| && s[k] == r;
    forall j | 0 <= j < |s| && s[j].requestId == id
      ensures j == k
    {
      assert j < k ==> Precedes(s[j], s[k]);
      assert k < j ==> Precedes(s[k], s[j]);
      SameKey(tables, q, ceiling, limit, id, submitted, s[j]);
    }
    assert IsOnly(s, k, id);
  }

  /** Row `k`, and no other, has this id. */
  ghost predicate IsOnly(s: seq<Row>, k: int, id: Uuid) {
    0 <= k < |s| && s[k].requestId == id && forall j | 0 <= j < |s| && s[j].requestId == id :: j == k
  }

  // --- the handler's checks ------------------------------------------------------------------

  /** What the list handler demands of a page before it shows it. */
  ghost predicate PageAcceptable(items: seq<Row>, more: bool, employee: string, entities: seq<string>, limit: nat) {
    && |items| <= limit && (items == [] ==> !more)
    && (forall i | 0 <= i < |items| ::
          items[i].employee == employee && items[i].entity in entities)
    && (forall i, j | 0 <= i < j < |items| :: items[i].requestId != items[j].requestId)
    && (forall i | 0 < i < |items| :: Goes(items[i - 1], items[i]))
  }

  method CheckPage(items: seq<Row>, more: bool, employee: string, entities: seq<string>, limit: nat) returns (ok: bool)
    ensures ok <==> PageAcceptable(items, more, employee, entities, limit)
  {
    if |items| > limit || (items == [] && more) {
      return false;
    }
    var seen: set<Uuid> := {};
    var previous: Option<Row> := None;
    for i := 0 to |items|
      invariant forall j | 0 <= j < i :: items[j].employee == employee && items[j].entity in entities
      invariant forall id :: id in seen <==> exists j | 0 <= j < i :: items[j].requestId == id
      invariant forall j, k | 0 <= j < k < i :: items[j].requestId != items[k].requestId
      invariant forall j | 0 < j < i :: Goes(items[j - 1], items[j])
      invariant previous == if i == 0 then None else Some(items[i - 1])
    {
      var record := items[i];
      if record.employee != employee || record.entity !in entities || record.requestId in seen {
        return false;
      }
      seen := seen + {record.requestId};
      if previous.Some? {
        if previous.value.submitted < record.submitted {
          return false;
        }
        if previous.value.submitted == record.submitted && previous.value.requestId > record.requestId {
          return false;
        }
      }
      previous := Some(record);
    }
    ok := true;
  }

  /** Every page of the provider passes, for any state of the table. */
  lemma PagesPass(rows: seq<Row>, q: Query, ceiling: Time, at: Option<C.Position>, limit: Positive)
    requires Table(rows)
    ensures var page := PageOf(rows, q, ceiling, at, limit);
      PageAcceptable(page.items, page.next.Some?, q.employee, q.entities, limit)
  {
    var page := PageOf(rows, q, ceiling, at, limit);
    PageFacts(rows, q, ceiling, at, limit);
    hide PageOf, Table;
    forall i | 0 <= i < |page.items|
      ensures page.items[i].employee == q.employee && page.items[i].entity in q.entities
    {
      assert page.items[i] in page.items;
    }
  }
}
