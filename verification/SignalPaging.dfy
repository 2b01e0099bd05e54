/** Keyset paging over the recent signals: each page ends with a cursor, the id of its last
    row, and the next page holds what comes after that row. Rows may be inserted between
    two requests. */
module SignalPaging {
  import opened Prelude

  datatype Row = Row(id: nat, occurredAt: int, fromMain: bool)

  // ORDER BY occurred_at DESC, id DESC.
  predicate Before(a: Row, b: Row) {
    a.occurredAt > b.occurredAt || (a.occurredAt == b.occurredAt && a.id > b.id)
  }

  predicate Descending(rows: seq<Row>) {
    forall i, j :: 0 <= i < j < |rows| ==> Before(rows[i], rows[j])
  }

  // A table is written down in its query order; id is the primary key.
  predicate Table(t: seq<Row>) {
    Descending(t) && forall i, j :: 0 <= i < j < |t| ==> t[i].id != t[j].id
  }

  // The cursor condition of the WHERE clause. An id that is not in the table selects
  // nothing, as comparisons with NULL do.
  ghost predicate Beyond(t: seq<Row>, beforeId: Option<nat>, r: Row) {
    beforeId.Some? ==>
      exists i :: 0 <= i < |t| && t[i].id == beforeId.value
                  && (r.occurredAt < t[i].occurredAt || (r.occurredAt == t[i].occurredAt && r.id < beforeId.value))
  }

  ghost predicate Wanted(t: seq<Row>, mainOnly: bool, beforeId: Option<nat>, r: Row) {
    (mainOnly ==> r.fromMain) && Beyond(t, beforeId, r)
  }

  // The wanted rows among the first n, in order.
  ghost function Select(t: seq<Row>, n: nat, mainOnly: bool, beforeId: Option<nat>): seq<Row>
    requires n <= |t|
  {
    if n == 0 then []
    else Select(t, n - 1, mainOnly, beforeId) + if Wanted(t, mainOnly, beforeId, t[n - 1]) then [t[n - 1]] else []
  }

  ghost function ListRecent(t: seq<Row>, limit: int, beforeId: Option<nat>, mainOnly: bool): seq<Row> {
    var limit := if limit < 1 then 1 else if limit > 501 then 501 else limit;
    var rows := Select(t, |t|, mainOnly, beforeId);
    if |rows| <= limit then rows else rows[..limit]
  }

  /** Of the wanted rows the first ones, in order: at least 1 and at most 501 of them, however
      many are asked for. */
  lemma RecentAreFirst(t: seq<Row>, limit: int, beforeId: Option<nat>, mainOnly: bool)
    requires Table(t)
    ensures var rows := ListRecent(t, limit, beforeId, mainOnly);
            && Descending(rows)
            && (forall r :: r in rows ==> r in t && Wanted(t, mainOnly, beforeId, r))
            && (forall r :: r in t && Wanted(t, mainOnly, beforeId, r) && r !in rows ==>
                  && |rows| >= 1 && Before(rows[|rows| - 1], r)
                  && |rows| == if limit <= 1 then 1 else if limit <= 501 then limit else 501)
            && |rows| <= 501 && (limit >= 1 ==> |rows| <= limit) && (limit < 1 ==> |rows| <= 1)
  {
    var all, rows := Select(t, |t|, mainOnly, beforeId), ListRecent(t, limit, beforeId, mainOnly);
    assert rows == all[..|rows|];
    hide Wanted, Before, Select;
    SelectLaws(t, |t|, mainOnly, beforeId);
    assert t[..|t|] == t;
    CutOff(all, |rows|);
  }

  lemma CutOff(all: seq<Row>, n: nat)
    requires Descending(all) && n <= |all|
    ensures Descending(all[..n])
    ensures forall r :: r in all && r !in all[..n] ==> n < |all| && (n > 0 ==> Before(all[n - 1], r))
  {
    hide Before;
    forall r | r in all && r !in all[..n] ensures n < |all| && (n > 0 ==> Before(all[n - 1], r)) {
      var i :| 0 <= i < |all| && all[i] == r;
      assert forall k :: 0 <= k < n ==> all[..n][k] == all[k];
      assert i >= n;
    }
  }

  datatype Page = Page(signals: seq<Row>, nextBeforeId: Option<nat>)

  ghost function RecentSignals(t: seq<Row>, limit: nat, beforeId: Option<nat>): Page
    requires 1 <= limit <= 500
  {
    var records := ListRecent(t, limit + 1, beforeId, true);
    var page := if |records| <= limit then records else records[..limit];
    Page(page, if |records| > limit && page != [] then Some(page[|page| - 1].id) else None)
  }

  // Following the cursor, the i-th request sees the i-th table: what is shown, and whether
  // the last page was reached.
  datatype Crawled = Crawled(shown: seq<Row>, finished: bool)

  ghost function Crawl(tables: seq<seq<Row>>, limit: nat, beforeId: Option<nat>): Crawled
    requires 1 <= limit <= 500
  {
    if tables == [] then Crawled([], false)
    else
      var page := RecentSignals(tables[0], limit, beforeId);
      if page.nextBeforeId.None? then Crawled(page.signals, true)
      else
        var rest := Crawl(tables[1..], limit, page.nextBeforeId);
        Crawled(page.signals + rest.shown, rest.finished)
  }

  function First(tables: seq<seq<Row>>, final: seq<Row>): seq<Row> {
    if tables == [] then final else tables[0]
  }

  // Rows are only added, from table to table and up to the final one.
  ghost predicate Growing(tables: seq<seq<Row>>, final: seq<Row>) {
    tables == [] ||
    (Table(tables[0]) && (forall r :: r in tables[0] ==> r in First(tables[1..], final)) && Growing(tables[1..], final))
  }

  lemma {:induction false} SelectLaws(t: seq<Row>, n: nat, mainOnly: bool, beforeId: Option<nat>)
    requires Table(t) && n <= |t|
    ensures var rows := Select(t, n, mainOnly, beforeId);
            && Descending(rows)
            && (forall r :: r in rows <==> r in t[..n] && Wanted(t, mainOnly, beforeId, r))
  {
    if n > 0 {
      SelectLaws(t, n - 1, mainOnly, beforeId);
      var rows := Select(t, n - 1, mainOnly, beforeId);
      forall i | 0 <= i < |rows| ensures Before(rows[i], t[n - 1]) {
        assert rows[i] in t[..n - 1];
      }
      assert t[..n] == t[..n - 1] + [t[n - 1]];
    }
  }

  // The cursor stands for a row of the table.
  ghost predicate CursorAt(t: seq<Row>, beforeId: Option<nat>, cursor: Option<Row>) {
    if cursor.Some? then cursor.value in t && beforeId == Some(cursor.value.id) else beforeId.None?
  }

  // What is still to be shown after a cursor.
  predicate Due(cursor: Option<Row>, r: Row) {
    r.fromMain && (cursor.Some? ==> Before(cursor.value, r))
  }

  lemma CursorMeansAfter(t: seq<Row>, beforeId: Option<nat>, cursor: Option<Row>, r: Row)
    requires Table(t) && CursorAt(t, beforeId, cursor)
    ensures Wanted(t, true, beforeId, r) <==> Due(cursor, r)
  {
  }

  /** One page: the due rows in order, from the first on; when there is a next cursor, what
      is due but not on the page comes after it, and without one nothing is left out. */
  lemma PageLaws(t: seq<Row>, limit: nat, beforeId: Option<nat>, cursor: Option<Row>)
    requires Table(t) && CursorAt(t, beforeId, cursor) && 1 <= limit <= 500
    ensures var page := RecentSignals(t, limit, beforeId);
            && Descending(page.signals)
            && (forall r :: r in page.signals ==> r in t && Due(cursor, r))
            && (page.nextBeforeId.None? ==> forall r :: r in t && Due(cursor, r) ==> r in page.signals)
            && (page.nextBeforeId.Some? ==>
                  && |page.signals| == limit
                  && var last := page.signals[limit - 1];
                     && CursorAt(t, page.nextBeforeId, Some(last))
                     && forall r :: r in t && Due(cursor, r) ==> r in page.signals || Before(last, r))
  {
    var rows := Select(t, |t|, true, beforeId);
    SelectLaws(t, |t|, true, beforeId);
    assert t[..|t|] == t;
    forall r ensures Wanted(t, true, beforeId, r) <==> Due(cursor, r) {
      CursorMeansAfter(t, beforeId, cursor, r);
    }
    var page := RecentSignals(t, limit, beforeId);
    if |rows| > limit {
      assert page.signals == rows[..limit];
      forall r | r in rows ensures r in page.signals || Before(rows[limit - 1], r) {
        var i :| 0 <= i < |rows| && rows[i] == r;
        if i < limit {
          assert rows[..limit][i] == r;
        }
      }
    } else {
      assert page.signals == rows;
    }
  }

  // What a crawl has to keep to: the order, due rows of the final table only, and, when it
  // finishes, all due rows of the first.
  ghost predicate Faithful(c: Crawled, first: seq<Row>, final: seq<Row>, cursor: Option<Row>) {
    && Descending(c.shown)
    && (forall r :: r in c.shown ==> r in final && Due(cursor, r))
    && (c.finished ==> forall r :: r in first && Due(cursor, r) ==> r in c.shown)
  }

  lemma {:induction false} InFinal(tables: seq<seq<Row>>, final: seq<Row>)
    requires Growing(tables, final)
    ensures forall r :: r in First(tables, final) ==> r in final
  {
    if tables != [] {
      InFinal(tables[1..], final);
    }
  }

  lemma {:induction false} CrawlIsFaithful(tables: seq<seq<Row>>, final: seq<Row>, limit: nat,
                                           beforeId: Option<nat>, cursor: Option<Row>)
    requires Growing(tables, final) && 1 <= limit <= 500
    requires tables != [] ==> CursorAt(tables[0], beforeId, cursor)
    ensures Faithful(Crawl(tables, limit, beforeId), First(tables, final), final, cursor)
  {
    if tables != [] {
      hide RecentSignals, Descending, Due, Before;
      InFinal(tables, final);
      PageLaws(tables[0], limit, beforeId, cursor);
      var page := RecentSignals(tables[0], limit, beforeId);
      if page.nextBeforeId.Some? {
        var last := page.signals[limit - 1];
        CrawlIsFaithful(tables[1..], final, limit, page.nextBeforeId, Some(last));
        JoinPages(tables[0], First(tables[1..], final), final, cursor, page.signals,
                  Crawl(tables[1..], limit, page.nextBeforeId));
      }
    }
  }

  // A page in front of a faithful rest; second is the table that the rest starts from.
  lemma JoinPages(first: seq<Row>, second: seq<Row>, final: seq<Row>, cursor: Option<Row>,
                  page: seq<Row>, rest: Crawled)
    requires Descending(page) && page != []
    requires forall r :: r in first ==> r in second && r in final
    requires forall r :: r in page ==> r in first && Due(cursor, r)
    requires forall r :: r in first && Due(cursor, r) ==> r in page || Before(page[|page| - 1], r)
    requires Faithful(rest, second, final, Some(page[|page| - 1]))
    ensures Faithful(Crawled(page + rest.shown, rest.finished), first, final, cursor)
  {
    AfterLast(page, rest.shown);
    assert page[|page| - 1] in page;
  }

  lemma AfterLast(page: seq<Row>, rest: seq<Row>)
    requires Descending(page) && Descending(rest) && page != []
    requires forall r :: r in rest ==> Before(page[|page| - 1], r)
    ensures Descending(page + rest)
  {
    forall i, j | 0 <= i < j < |page + rest| ensures Before((page + rest)[i], (page + rest)[j]) {
      if i < |page| <= j {
        assert rest[j - |page|] in rest;
        assert i == |page| - 1 || Before(page[i], page[|page| - 1]);
      }
    }
  }

  /** Following the cursor while rows are being added: no row is shown twice, the order
      never breaks (ties in time included), and once there is no next page every signal
      that was there at the first request has been shown. */
  lemma PagingIsStable(tables: seq<seq<Row>>, final: seq<Row>, limit: nat)
    requires Growing(tables, final) && 1 <= limit <= 500
    ensures var c := Crawl(tables, limit, None);
            && Descending(c.shown)
            && (forall i, j :: 0 <= i < j < |c.shown| ==>
                  c.shown[i] != c.shown[j] && c.shown[i].occurredAt >= c.shown[j].occurredAt
                  && (c.shown[i].occurredAt == c.shown[j].occurredAt ==> c.shown[i].id > c.shown[j].id))
            && (forall r :: r in c.shown ==> r.fromMain && r in final)
            && (c.finished ==> forall r :: r in First(tables, final) && r.fromMain ==> r in c.shown)
  {
    CrawlIsFaithful(tables, final, limit, None, None);
  }

  // ---- A table that stands still ----

  lemma {:induction false} SameMembers(a: seq<Row>, b: seq<Row>)
    requires Descending(a) && Descending(b) && forall r :: r in a <==> r in b
    ensures a == b
  {
    assert forall i :: 0 <= i < |a| ==> a[i] in a;
    assert forall i :: 0 <= i < |b| ==> b[i] in b;
    if a != [] && b != [] {
      assert a[0] in b && b[0] in a;
      assert a[0] == b[0];
      forall r ensures r in a[1..] <==> r in b[1..] {
        assert r in a <==> r == a[0] || r in a[1..];
        assert r in b <==> r == b[0] || r in b[1..];
      }
      SameMembers(a[1..], b[1..]);
    }
  }

  // All the rows after a cursor.
  ghost function Remaining(t: seq<Row>, beforeId: Option<nat>): seq<Row> {
    Select(t, |t|, true, beforeId)
  }

  lemma NextPageContinues(t: seq<Row>, limit: nat, beforeId: Option<nat>, cursor: Option<Row>)
    requires Table(t) && CursorAt(t, beforeId, cursor) && 1 <= limit <= 500
    ensures var page := RecentSignals(t, limit, beforeId);
            && (page.nextBeforeId.Some? <==> |Remaining(t, beforeId)| > limit)
            && Remaining(t, beforeId) == page.signals +
                 if page.nextBeforeId.Some? then Remaining(t, page.nextBeforeId) else []
  {
    var page := RecentSignals(t, limit, beforeId);
    var rows := Remaining(t, beforeId);
    SelectLaws(t, |t|, true, beforeId);
    assert t[..|t|] == t;
    PageLaws(t, limit, beforeId, cursor);
    if |rows| > limit {
      assert page.signals == rows[..limit];
      var last := rows[limit - 1];
      SelectLaws(t, |t|, true, page.nextBeforeId);
      forall r ensures r in rows[limit..] <==> r in Remaining(t, page.nextBeforeId) {
        CursorMeansAfter(t, beforeId, cursor, r);
        CursorMeansAfter(t, page.nextBeforeId, Some(last), r);
        AfterIndex(rows, limit, r);
      }
      SameMembers(rows[limit..], Remaining(t, page.nextBeforeId));
      assert rows == rows[..limit] + rows[limit..];
    } else {
      assert page.signals + [] == page.signals;
    }
  }

  lemma AfterIndex(rows: seq<Row>, n: nat, r: Row)
    requires Descending(rows) && 0 < n <= |rows|
    ensures r in rows[n..] <==> r in rows && Before(rows[n - 1], r)
  {
  }

  lemma {:induction false} StillCrawl(t: seq<Row>, pages: nat, limit: nat, beforeId: Option<nat>, cursor: Option<Row>)
    requires Table(t) && CursorAt(t, beforeId, cursor) && 1 <= limit <= 500
    requires pages > 0 && |Remaining(t, beforeId)| <= pages * limit
    ensures Crawl(seq(pages, _ => t), limit, beforeId) == Crawled(Remaining(t, beforeId), true)
    decreases pages
  {
    hide RecentSignals, Remaining, Due, Before, Descending;
    var tables := seq(pages, _ => t);
    var page := RecentSignals(t, limit, beforeId);
    NextPageContinues(t, limit, beforeId, cursor);
    PageLaws(t, limit, beforeId, cursor);
    if page.nextBeforeId.Some? {
      assert tables[1..] == seq(pages - 1, _ => t);
      StillCrawl(t, pages - 1, limit, page.nextBeforeId, Some(page.signals[limit - 1]));
    } else {
      assert page.signals + [] == page.signals;
    }
  }

  /** On a table that does not change, n signals take as many pages as n rows need, and the
      pages put together are exactly the signals, in order. */
  lemma PagingIsComplete(t: seq<Row>, pages: nat, limit: nat)
    requires Table(t) && 1 <= limit <= 500 && pages > 0 && |Remaining(t, None)| <= pages * limit
    ensures Crawl(seq(pages, _ => t), limit, None) == Crawled(Remaining(t, None), true)
    ensures forall r :: r in Remaining(t, None) <==> r in t && r.fromMain
    ensures Descending(Remaining(t, None))
  {
    StillCrawl(t, pages, limit, None, None);
    SelectLaws(t, |t|, true, None);
    assert t[..|t|] == t;
  }
}
