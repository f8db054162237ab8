/** Keyset pagination of the server list (api/services/registry_service.py): pages over a fixed table,
    and over a table that changes between the pages. */
module Pagination {
  import opened Options
  import opened Sorting

  type Id = nat

  /** A server row: its creation time and whatever the filters look at. */
  datatype Row<A> = Row(createdAt: int, attributes: A)
  type Table<A> = map<Id, Row<A>>

  /** The sort key, and what a cursor encodes. */
  datatype Position = Position(createdAt: int, id: Id)

  datatype Page = Page(rows: seq<Position>, next: Option<Position>, hasMore: bool)

  predicate Newer(a: Position, b: Position) {
    a.createdAt > b.createdAt || (a.createdAt == b.createdAt && a.id > b.id)
  }

  /** `ORDER BY created_at DESC, id DESC`. */
  predicate NewestFirst(a: Position, b: Position) {
    a == b || Newer(a, b)
  }

  lemma NewestFirstTotalOrder()
    ensures TotalOrder(NewestFirst)
  {
  }

  /** The rows a page is cut from: those that match the filters and lie beyond the cursor. */
  function Remaining<A>(table: Table<A>, matches: Row<A> -> bool, cursor: Option<Position>): set<Position> {
    set id | id in table && matches(table[id])
      && (cursor.Some? ==> Newer(cursor.value, Position(table[id].createdAt, id)))
      :: Position(table[id].createdAt, id)
  }

  function Ordered<A>(table: Table<A>, matches: Row<A> -> bool, cursor: Option<Position>): seq<Position> {
    NewestFirstTotalOrder();
    Sorted(Remaining(table, matches, cursor), NewestFirst)
  }

  /** The queried list: the matching rows of the table beyond the cursor, created strictly earlier from
      row to row, or at the same time with a smaller id. */
  lemma OrderedMeans<A>(table: Table<A>, matches: Row<A> -> bool, cursor: Option<Position>)
    ensures var all := Ordered(table, matches, cursor);
      && (forall p :: p in all <==>
           && p.id in table && table[p.id].createdAt == p.createdAt && matches(table[p.id])
           && (cursor.Some? ==>
                || p.createdAt < cursor.value.createdAt
                || (p.createdAt == cursor.value.createdAt && p.id < cursor.value.id)))
      && (forall i, j :: 0 <= i < j < |all| ==>
           || all[j].createdAt < all[i].createdAt
           || (all[j].createdAt == all[i].createdAt && all[j].id < all[i].id))
  {
    OrderedIs(table, matches, cursor);
    forall p ensures p in Remaining(table, matches, cursor) <==>
      && p.id in table && table[p.id].createdAt == p.createdAt && matches(table[p.id])
      && (cursor.Some? ==>
           || p.createdAt < cursor.value.createdAt
           || (p.createdAt == cursor.value.createdAt && p.id < cursor.value.id))
    {
    }
  }

  lemma OrderedIs<A>(table: Table<A>, matches: Row<A> -> bool, cursor: Option<Position>)
    ensures Ascending(Ordered(table, matches, cursor), NewestFirst)
    ensures forall p :: p in Ordered(table, matches, cursor) <==> p in Remaining(table, matches, cursor)
  {
    NewestFirstTotalOrder();
    assert Elements(Ordered(table, matches, cursor)) == Remaining(table, matches, cursor);
    assert forall p :: p in Ordered(table, matches, cursor) <==> p in Elements(Ordered(table, matches, cursor));
  }

  /** The first page of an ordered list, with the last row's position as cursor if there is more. */
  function Cut(all: seq<Position>, perPage: nat): Page {
    if |all| <= perPage then Page(all, None, false)
    else if perPage == 0 then Page([], None, true)
    else Page(all[..perPage], Some(all[perPage - 1]), true)
  }

  function PageOf<A>(table: Table<A>, matches: Row<A> -> bool, cursor: Option<Position>, perPage: nat): Page {
    Cut(Ordered(table, matches, cursor), perPage)
  }

  /** Fetches one row more than the page holds to learn whether there are more. */
  method ListServers<A>(table: Table<A>, matches: Row<A> -> bool, cursor: Option<Position>, perPage: nat)
    returns (page: Page)
    ensures page == PageOf(table, matches, cursor, perPage)
  {
    page := CutPage(Ordered(table, matches, cursor), perPage);
  }

  method CutPage(answer: seq<Position>, perPage: nat) returns (page: Page)
    ensures page == Cut(answer, perPage)
  {
    var servers := if |answer| > perPage + 1 then answer[..perPage + 1] else answer;
    var hasMore := |servers| > perPage;
    if hasMore {
      servers := servers[..perPage];
    }
    var next := None;
    if hasMore && servers != [] {
      next := Some(servers[|servers| - 1]);
    }
    return Page(servers, next, hasMore);
  }

  // ---------------------------------------------------------------- a fixed table

  /** In an ascending listing, what follows position `n` is what is newer than the entry before it. */
  lemma TailNewer(all: seq<Position>, n: nat, p: Position)
    requires Ascending(all, NewestFirst) && 0 < n <= |all|
    ensures p in all[n..] <==> p in all && Newer(all[n - 1], p)
  {
    assert all == all[..n] + all[n..];
    if p in all[n..] {
      var k :| 0 <= k < |all| - n && all[n..][k] == p;
      assert all[n + k] == p;
    } else if p in all {
      var k :| 0 <= k < n && all[..n][k] == p;
      assert k < n - 1 ==> NewestFirst(all[k], all[n - 1]);
    }
  }

  lemma Suffix<A>(table: Table<A>, matches: Row<A> -> bool, cursor: Option<Position>, n: nat)
    requires 0 < n <= |Ordered(table, matches, cursor)|
    ensures var all := Ordered(table, matches, cursor);
      Ordered(table, matches, Some(all[n - 1])) == all[n..]
  {
    var all := Ordered(table, matches, cursor);
    var last := all[n - 1];
    var rest := Ordered(table, matches, Some(last));
    OrderedIs(table, matches, cursor);
    OrderedIs(table, matches, Some(last));
    assert last in all;
    forall p ensures p in rest <==> p in all[n..] {
      TailNewer(all, n, p);
      RemainingNext(table, matches, cursor, last, p);
    }
    SameListing(rest, all[n..]);
  }

  /** Beyond a row that lies beyond the cursor is beyond the cursor. */
  lemma RemainingNext<A>(table: Table<A>, matches: Row<A> -> bool, cursor: Option<Position>, last: Position,
                         p: Position)
    requires last in Remaining(table, matches, cursor)
    ensures p in Remaining(table, matches, Some(last)) <==> p in Remaining(table, matches, cursor) && Newer(last, p)
  {
  }

  lemma SameListing(xs: seq<Position>, ys: seq<Position>)
    requires Ascending(xs, NewestFirst) && Ascending(ys, NewestFirst) && forall p :: p in xs <==> p in ys
    ensures xs == ys
  {
    NewestFirstTotalOrder();
    assert Elements(xs) == Elements(ys);
    AscendingUnique(xs, ys, NewestFirst);
  }

  /** The pages obtained by following `next_cursor` until it is null. */
  function ScanFrom<A>(table: Table<A>, matches: Row<A> -> bool, cursor: Option<Position>, perPage: nat)
    : (pages: seq<Page>)
    requires perPage > 0
    ensures pages != []
    decreases |Ordered(table, matches, cursor)|
  {
    var page := PageOf(table, matches, cursor, perPage);
    if page.next.None? then [page]
    else
      Suffix(table, matches, cursor, perPage);
      [page] + ScanFrom(table, matches, page.next, perPage)
  }

  function Flatten(pages: seq<Page>): seq<Position> {
    if pages == [] then [] else pages[0].rows + Flatten(pages[1..])
  }

  /** The pages needed for `n` rows: at least one. */
  function PageCount(n: nat, perPage: nat): nat
    requires perPage > 0
  {
    if n <= perPage then 1 else 1 + PageCount(n - perPage, perPage)
  }

  /** That is `max(1, ceil(n / perPage))`. */
  lemma {:induction false} PageCountIs(n: nat, perPage: nat)
    requires perPage > 0
    ensures PageCount(n, perPage) == if n == 0 then 1 else (n + perPage - 1) / perPage
  {
    if n > perPage {
      PageCountIs(n - perPage, perPage);
      DivStep(n - 1, perPage);
    } else if n > 0 {
      DivUnique(n + perPage - 1, perPage, 1, n - 1);
    }
  }

  lemma DivStep(m: nat, d: nat)
    requires d > 0
    ensures (m + d) / d == m / d + 1
  {
    var q, r := m / d, m % d;
    assert m == d * q + r;
    assert m + d == d * (q + 1) + r;
    DivUnique(m + d, d, q + 1, r);
  }

  lemma DivUnique(n: int, d: int, q: int, r: int)
    requires d > 0 && 0 <= r < d && n == d * q + r
    ensures n / d == q
  {
    var q', r' := n / d, n % d;
    assert n == d * q' + r';
    assert (q - q') * d == r' - r;
    SmallMultiple(q - q', d);
  }

  lemma SmallMultiple(k: int, d: int)
    requires d > 0 && -d < k * d < d
    ensures k == 0
  {
    assert k >= 1 ==> k * d >= d;
    assert k <= -1 ==> k * d <= -d;
  }

  lemma FlattenCons(page: Page, rest: seq<Page>)
    ensures Flatten([page] + rest) == page.rows + Flatten(rest)
  {
    assert ([page] + rest)[1..] == rest;
  }

  lemma CutParts(all: seq<Position>, perPage: nat)
    requires perPage > 0
    ensures var page := Cut(all, perPage);
      && (page.next.None? <==> |all| <= perPage)
      && (page.next.None? ==> page.rows == all)
      && (page.next.Some? ==> page.next.value == all[perPage - 1] && page.rows + all[perPage..] == all)
  {
  }

  /** A list cut into pages one after the other. */
  function Pages(all: seq<Position>, perPage: nat): (pages: seq<Page>)
    requires perPage > 0
    decreases |all|
  {
    if |all| <= perPage then [Cut(all, perPage)] else [Cut(all, perPage)] + Pages(all[perPage..], perPage)
  }

  lemma {:induction false} PagesComplete(all: seq<Position>, perPage: nat)
    requires perPage > 0
    ensures Flatten(Pages(all, perPage)) == all && |Pages(all, perPage)| == PageCount(|all|, perPage)
    decreases |all|
  {
    CutParts(all, perPage);
    if |all| <= perPage {
      FlattenCons(Cut(all, perPage), []);
    } else {
      PagesComplete(all[perPage..], perPage);
      FlattenCons(Cut(all, perPage), Pages(all[perPage..], perPage));
    }
  }

  /** Following cursors on a fixed table cuts up the whole list. */
  lemma {:induction false} ScanIsPages<A>(table: Table<A>, matches: Row<A> -> bool, cursor: Option<Position>,
                                          perPage: nat)
    requires perPage > 0
    ensures ScanFrom(table, matches, cursor, perPage) == Pages(Ordered(table, matches, cursor), perPage)
    decreases |Ordered(table, matches, cursor)|
  {
    var all := Ordered(table, matches, cursor);
    CutParts(all, perPage);
    if |all| > perPage {
      var next := Some(all[perPage - 1]);
      Suffix(table, matches, cursor, perPage);
      ScanIsPages(table, matches, next, perPage);
    }
  }

  /** On a fixed table a scan returns the whole filtered list in order, in as few pages as hold it. */
  lemma ScanComplete<A>(table: Table<A>, matches: Row<A> -> bool, cursor: Option<Position>, perPage: nat)
    requires perPage > 0
    ensures var pages := ScanFrom(table, matches, cursor, perPage);
      && Flatten(pages) == Ordered(table, matches, cursor)
      && |pages| == PageCount(|Ordered(table, matches, cursor)|, perPage)
  {
    ScanIsPages(table, matches, cursor, perPage);
    PagesComplete(Ordered(table, matches, cursor), perPage);
  }

  /** With `per_page` zero, which the router lets through, a scan ends at once with nothing: it is
      complete exactly when nothing matches. */
  lemma ZeroPerPage<A>(table: Table<A>, matches: Row<A> -> bool)
    ensures var page := PageOf(table, matches, None, 0);
      && page.rows == [] && page.next.None? && page.hasMore == (Remaining(table, matches, None) != {})
      && (page.rows == Ordered(table, matches, None) <==> Remaining(table, matches, None) == {})
  {
    OrderedIs(table, matches, None);
    var all := Ordered(table, matches, None);
    assert all != [] ==> all[0] in all;
  }

  // ---------------------------------------------------------------- a changing table

  function CursorOf(pages: seq<Page>, i: nat): Option<Position>
    requires i <= |pages|
  {
    if i == 0 then None else pages[i - 1].next
  }

  /** A scan run to its end while the table changes at will: page `i` was cut from `tables[i]`. */
  ghost predicate CompletedScan<A>(tables: seq<Table<A>>, matches: Row<A> -> bool, perPage: nat, pages: seq<Page>) {
    && perPage > 0 && |tables| == |pages| > 0
    && (forall i :: 0 <= i < |pages| ==> pages[i] == PageOf(tables[i], matches, CursorOf(pages, i), perPage))
    && (forall i :: 0 <= i < |pages| ==> (pages[i].next.Some? <==> i < |pages| - 1))
  }

  /** What one page holds: rows strictly beyond its cursor, and all of them down to its own. */
  lemma PageHolds<A>(table: Table<A>, matches: Row<A> -> bool, cursor: Option<Position>, perPage: nat, p: Position)
    requires perPage > 0
    ensures var page := PageOf(table, matches, cursor, perPage);
      p in page.rows <==>
        p in Remaining(table, matches, cursor) && (page.next.Some? ==> NewestFirst(p, page.next.value))
  {
    OrderedIs(table, matches, cursor);
    CutHolds(Ordered(table, matches, cursor), perPage, p);
  }

  lemma CutHolds(all: seq<Position>, perPage: nat, p: Position)
    requires perPage > 0 && Ascending(all, NewestFirst)
    ensures var page := Cut(all, perPage);
      p in page.rows <==> p in all && (page.next.Some? ==> NewestFirst(p, page.next.value))
  {
    if |all| > perPage {
      TailNewer(all, perPage, p);
      assert all == all[..perPage] + all[perPage..];
      if p in all[..perPage] {
        var k :| 0 <= k < perPage && all[..perPage][k] == p;
        assert k < perPage - 1 ==> NewestFirst(all[k], all[perPage - 1]);
      }
    }
  }

  /** A page lies strictly beyond its cursor and ends at its own. */
  ghost predicate Bounded(page: Page, cursor: Option<Position>) {
    && Ascending(page.rows, NewestFirst)
    && (forall p :: p in page.rows ==>
         (cursor.Some? ==> Newer(cursor.value, p)) && (page.next.Some? ==> NewestFirst(p, page.next.value)))
    && (page.next.Some? ==> page.next.value in page.rows)
  }

  ghost predicate Chain(pages: seq<Page>) {
    && (forall i :: 0 <= i < |pages| ==> Bounded(pages[i], CursorOf(pages, i)))
    && (forall i :: 0 <= i < |pages| ==> (pages[i].next.Some? <==> i < |pages| - 1))
  }

  lemma PageBounded<A>(table: Table<A>, matches: Row<A> -> bool, cursor: Option<Position>, perPage: nat)
    requires perPage > 0
    ensures Bounded(PageOf(table, matches, cursor, perPage), cursor)
  {
    OrderedIs(table, matches, cursor);
    var page := PageOf(table, matches, cursor, perPage);
    forall p | p in page.rows
      ensures (cursor.Some? ==> Newer(cursor.value, p)) && (page.next.Some? ==> NewestFirst(p, page.next.value))
    {
      PageHolds(table, matches, cursor, perPage, p);
    }
  }

  lemma ScanChain<A>(tables: seq<Table<A>>, matches: Row<A> -> bool, perPage: nat, pages: seq<Page>)
    requires CompletedScan(tables, matches, perPage, pages)
    ensures Chain(pages)
  {
    forall i | 0 <= i < |pages| ensures Bounded(pages[i], CursorOf(pages, i)) {
      PageBounded(tables[i], matches, CursorOf(pages, i), perPage);
    }
  }

  lemma ChainAt(pages: seq<Page>, i: nat, p: Position)
    requires Chain(pages) && i < |pages| && p in pages[i].rows
    ensures i > 0 ==> pages[i - 1].next.Some? && Newer(pages[i - 1].next.value, p)
    ensures i < |pages| - 1 ==>
      pages[i].next.Some? && pages[i].next.value in pages[i].rows && NewestFirst(p, pages[i].next.value)
  {
    assert Bounded(pages[i], CursorOf(pages, i));
  }

  /** The last row of a page that has a successor. */
  lemma CursorRow(pages: seq<Page>, i: nat)
    requires Chain(pages) && i < |pages| - 1
    ensures pages[i].next.Some? && pages[i].next.value in pages[i].rows
  {
    assert Bounded(pages[i], CursorOf(pages, i));
  }

  lemma NewerTransitive(a: Position, b: Position, c: Position)
    requires Newer(a, b) && Newer(b, c)
    ensures Newer(a, c)
  {
  }

  /** Cursors move strictly down the order from page to page. */
  lemma {:induction false} CursorsDescend(pages: seq<Page>, i: nat, j: nat, q: Position)
    requires Chain(pages) && i < j < |pages| && q in pages[j].rows
    ensures pages[i].next.Some? && Newer(pages[i].next.value, q)
    decreases j
  {
    ChainAt(pages, j, q);
    if i + 1 < j {
      CursorRow(pages, j - 1);
      var between := pages[j - 1].next.value;
      CursorsDescend(pages, i, j - 1, between);
      NewerTransitive(pages[i].next.value, between, q);
    }
  }

  lemma ChainDescends(pages: seq<Page>, i: nat, j: nat, p: Position, q: Position)
    requires Chain(pages) && i < j < |pages|
    requires p in pages[i].rows && q in pages[j].rows
    ensures Newer(p, q)
  {
    ChainAt(pages, i, p);
    CursorsDescend(pages, i, j, q);
  }

  /** A page holds only matching rows of the table beyond its cursor, newest first, and leaves one out
      only when it is full and every row on it is newer. */
  lemma PageMeans<A>(table: Table<A>, matches: Row<A> -> bool, cursor: Option<Position>, perPage: nat, p: Position)
    requires p.id in table && table[p.id].createdAt == p.createdAt && matches(table[p.id])
    requires cursor.Some? ==>
      || p.createdAt < cursor.value.createdAt
      || (p.createdAt == cursor.value.createdAt && p.id < cursor.value.id)
    ensures var rows := PageOf(table, matches, cursor, perPage).rows;
      && |rows| <= perPage && rows <= Ordered(table, matches, cursor)
      && (p !in rows ==>
           && |rows| == perPage
           && forall q :: q in rows ==>
                || p.createdAt < q.createdAt
                || (p.createdAt == q.createdAt && p.id < q.id))
  {
    var all, rows := Ordered(table, matches, cursor), PageOf(table, matches, cursor, perPage).rows;
    OrderedMeans(table, matches, cursor);
    assert p in all;
    if p !in rows {
      var k :| 0 <= k < |all| && all[k] == p;
      assert forall j :: 0 <= j < |rows| ==> rows[j] == all[j];
      assert k >= |rows|;
    }
  }

  /** There is more exactly if the list is longer than the page; then the cursor is the page's last row,
      and otherwise the page is the whole list. */
  lemma PageEnds<A>(table: Table<A>, matches: Row<A> -> bool, cursor: Option<Position>, perPage: nat)
    ensures var all, page := Ordered(table, matches, cursor), PageOf(table, matches, cursor, perPage);
      && (page.hasMore <==> |all| > perPage)
      && page.next == (if page.hasMore && page.rows != [] then Some(page.rows[|page.rows| - 1]) else None)
      && (!page.hasMore ==> page.rows == all)
  {
  }

  /** Keys strictly decrease, in creation time or else in id, from one page to a later one and from row
      to row within a page. */
  lemma KeysDescend<A>(tables: seq<Table<A>>, matches: Row<A> -> bool, perPage: nat, pages: seq<Page>,
                       i: nat, j: nat, p: Position, q: Position)
    requires CompletedScan(tables, matches, perPage, pages) && i < |pages| && j < |pages|
    requires p in pages[i].rows && q in pages[j].rows
    ensures i < j ==> q.createdAt < p.createdAt || (q.createdAt == p.createdAt && q.id < p.id)
    ensures var rows := pages[i].rows;
      forall a, b :: 0 <= a < b < |rows| ==>
        || rows[b].createdAt < rows[a].createdAt
        || (rows[b].createdAt == rows[a].createdAt && rows[b].id < rows[a].id)
  {
    ScanChain(tables, matches, perPage, pages);
    assert Bounded(pages[i], CursorOf(pages, i));
    if i < j {
      ChainDescends(pages, i, j, p, q);
    }
  }

  /** With creation times fixed, no server id appears on two pages. */
  lemma NoServerTwice<A>(tables: seq<Table<A>>, matches: Row<A> -> bool, perPage: nat, pages: seq<Page>,
                         i: nat, j: nat, p: Position, q: Position)
    requires CompletedScan(tables, matches, perPage, pages) && i < j < |pages|
    requires forall a, b, id :: 0 <= a < |tables| && 0 <= b < |tables| && id in tables[a] && id in tables[b] ==>
               tables[a][id].createdAt == tables[b][id].createdAt
    requires p in pages[i].rows && q in pages[j].rows
    ensures p.id != q.id
  {
    KeysDescend(tables, matches, perPage, pages, i, j, p, q);
    PageHolds(tables[i], matches, CursorOf(pages, i), perPage, p);
    PageHolds(tables[j], matches, CursorOf(pages, j), perPage, q);
  }

  /** The server is in every table of the scan, created at the same time, and matches the filters. */
  predicate PresentThroughout<A>(tables: seq<Table<A>>, matches: Row<A> -> bool, p: Position) {
    forall i | 0 <= i < |tables| ::
      p.id in tables[i] && tables[i][p.id].createdAt == p.createdAt && matches(tables[i][p.id])
  }

  /** A matching server present throughout is returned, on exactly one page. */
  lemma ReturnedOnce<A>(tables: seq<Table<A>>, matches: Row<A> -> bool, perPage: nat, pages: seq<Page>, p: Position)
    requires CompletedScan(tables, matches, perPage, pages) && PresentThroughout(tables, matches, p)
    ensures exists i :: 0 <= i < |pages| && p in pages[i].rows
    ensures forall i, j :: 0 <= i < |pages| && 0 <= j < |pages| && p in pages[i].rows && p in pages[j].rows ==> i == j
  {
    var i := FirstPageReaching(tables, matches, perPage, pages, p, 0);
    PageHolds(tables[i], matches, CursorOf(pages, i), perPage, p);
    forall i, j | 0 <= i < j < |pages|
      ensures !(p in pages[i].rows && p in pages[j].rows)
    {
      if p in pages[i].rows && p in pages[j].rows {
        KeysDescend(tables, matches, perPage, pages, i, j, p, p);
      }
    }
  }

  /** The first page from `i` on whose cursor is not above `p`. */
  lemma {:induction false} FirstPageReaching<A>(tables: seq<Table<A>>, matches: Row<A> -> bool, perPage: nat,
                                                pages: seq<Page>, p: Position, i: nat) returns (k: nat)
    requires CompletedScan(tables, matches, perPage, pages) && PresentThroughout(tables, matches, p)
    requires i < |pages| && (i > 0 ==> Newer(pages[i - 1].next.value, p))
    ensures i <= k < |pages| && p in Remaining(tables[k], matches, CursorOf(pages, k))
    ensures pages[k].next.Some? ==> NewestFirst(p, pages[k].next.value)
    decreases |pages| - i
  {
    if pages[i].next.Some? && Newer(pages[i].next.value, p) {
      k := FirstPageReaching(tables, matches, perPage, pages, p, i + 1);
    } else {
      k := i;
    }
  }
}
