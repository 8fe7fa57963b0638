/**
 Keyset pagination over a newest-first list. A table is the strictly ordered listing of its rows
 by (order DESC, id DESC); a cursor is the decoded (order, id) pair. The database is assumed to
 filter, sort and take correctly.
 */
module Pagination {
  import opened Common

  datatype Row = Row(order: int, id: int)

  /** `a` comes strictly before `b` in order DESC, id DESC. */
  predicate Before(a: Row, b: Row) {
    a.order > b.order || (a.order == b.order && a.id > b.id)
  }

  ghost predicate Sorted(t: seq<Row>) {
    forall i, j | 0 <= i < j < |t| :: Before(t[i], t[j])
  }

  const DEFAULT_PAGE_LIMIT := 50
  const MAX_PAGE_LIMIT := 100

  datatype LimitArg = NoLimit | NotAnInteger | Limit(n: int)
  datatype CursorArg = NoCursor | Malformed | At(cursor: Row)

  datatype Page = Page(items: seq<Row>, next: Option<Row>)
  datatype Outcome = BadLimit | BadCursor | Found(page: Page)

  /** The disjunction handed to the database as the `where` clause. */
  predicate CursorPredicate(row: Row, cursor: Row) {
    row.order < cursor.order || (row.order == cursor.order && row.id < cursor.id)
  }

  function Matching(t: seq<Row>, cursor: Option<Row>): seq<Row> {
    if t == [] then []
    else (if cursor.None? || CursorPredicate(t[0], cursor.value) then [t[0]] else []) + Matching(t[1..], cursor)
  }

  function FindPage(t: seq<Row>, cursor: Option<Row>, take: nat): seq<Row> {
    var rows := Matching(t, cursor);
    if |rows| <= take then rows else rows[..take]
  }

  function PageAt(t: seq<Row>, limit: nat, cursor: Option<Row>): Page {
    var rows := FindPage(t, cursor, limit + 1);
    var items := if |rows| > limit then rows[..limit] else rows;
    Page(items, if |rows| > limit && items != [] then Some(items[|items| - 1]) else None)
  }

  function Paginate(t: seq<Row>, limit: LimitArg, cursor: CursorArg): Outcome {
    if limit.NotAnInteger? || (limit.Limit? && (limit.n < 1 || limit.n > MAX_PAGE_LIMIT)) then BadLimit
    else if cursor.Malformed? then BadCursor
    else Found(PageAt(t, if limit.Limit? then limit.n else DEFAULT_PAGE_LIMIT, if cursor.At? then Some(cursor.cursor) else None))
  }

  // ----- What one page is -----

  /** The where clause selects exactly the rows strictly after the cursor. */
  lemma {:induction false} MatchingIsAfter(t: seq<Row>, cursor: Option<Row>)
    requires Sorted(t)
    ensures Sorted(Matching(t, cursor))
    ensures forall row :: row in Matching(t, cursor) <==> row in t && (cursor.Some? ==> Before(cursor.value, row))
  {
    if t != [] {
      SortedTail(t);
      MatchingIsAfter(t[1..], cursor);
      var rest := Matching(t[1..], cursor);
      assert t == [t[0]] + t[1..];
      assert forall row | row in rest :: Before(t[0], row);
    }
  }

  lemma SortedTail(t: seq<Row>)
    requires Sorted(t) && t != []
    ensures Sorted(t[1..]) && forall row | row in t[1..] :: Before(t[0], row)
  {
    var u := t[1..];
    forall i, j | 0 <= i < j < |u| ensures Before(u[i], u[j]) { assert Before(t[i + 1], t[j + 1]); }
    forall row | row in u ensures Before(t[0], row) {
      var i :| 0 <= i < |u| && u[i] == row;
      assert Before(t[0], t[i + 1]);
    }
  }

  lemma Position(t: seq<Row>, i: nat, j: nat)
    requires Sorted(t) && i < |t| && j < |t|
    ensures Before(t[i], t[j]) <==> i < j
  {
  }

  lemma Inhabited(t: seq<Row>)
    ensures t == [] || t[0] in t
  {
  }

  /** The rows after the last row of a page of a sorted listing are the rest of that listing. */
  lemma {:induction false} MatchingSuffix(t: seq<Row>, cursor: Option<Row>, k: nat)
    requires Sorted(t) && k < |Matching(t, cursor)|
    ensures Matching(t, Some(Matching(t, cursor)[k])) == Matching(t, cursor)[k + 1..]
  {
    MatchingIsAfter(t, cursor);
    var m := Matching(t, cursor);
    MatchingIsAfter(t, Some(m[k]));
    var a, b := Matching(t, Some(m[k])), m[k + 1..];
    assert Sorted(b) by {
      forall i, j | 0 <= i < j < |b| ensures Before(b[i], b[j]) { assert Before(m[k + 1 + i], m[k + 1 + j]); }
    }
    forall row ensures row in a <==> row in b {
      if row in a {
        assert cursor.Some? ==> Before(cursor.value, m[k]) by { assert m[k] in m; }
        assert row in m;
        var i :| 0 <= i < |m| && m[i] == row;
        Position(m, k, i);
        assert b[i - k - 1] == row;
      }
      if row in b {
        var i :| 0 <= i < |b| && b[i] == row;
        assert m[k + 1 + i] == row && Before(m[k], m[k + 1 + i]);
        assert row in m;
      }
    }
    SortedUnique(a, b);
  }

  /** A strictly ordered listing is determined by its elements. */
  lemma {:induction false} SortedUnique(a: seq<Row>, b: seq<Row>)
    requires Sorted(a) && Sorted(b) && forall row :: row in a <==> row in b
    ensures a == b
    decreases |a|
  {
    if a == [] {
      Inhabited(b);
    } else {
      assert a[0] in b;
      var i :| 0 <= i < |b| && b[i] == a[0];
      assert b[0] in a;
      var j :| 0 <= j < |a| && a[j] == b[0];
      Position(b, 0, i);
      Position(a, 0, j);
      SortedTail(a);
      SortedTail(b);
      assert a == [a[0]] + a[1..] && b == [b[0]] + b[1..];
      assert a[0] == b[0];
      forall row ensures row in a[1..] <==> row in b[1..] {
        assert row in a[1..] ==> row in b && row != b[0];
        assert row in b[1..] ==> row in a && row != a[0];
      }
      SortedUnique(a[1..], b[1..]);
    }
  }

  /** The page cut from the matching rows, one more of which is fetched than fits. */
  lemma PageShape(t: seq<Row>, limit: nat, cursor: Option<Row>)
    requires 1 <= limit
    ensures var p := PageAt(t, limit, cursor); var m := Matching(t, cursor);
            if |m| <= limit then p == Page(m, None) else p == Page(m[..limit], Some(m[limit - 1]))
  {
    hide Matching;
    var m := Matching(t, cursor);
    if |m| > limit + 1 { assert m[..limit + 1][..limit] == m[..limit]; }
  }

  /** `next` is null exactly when no row follows the page; otherwise it points at the page's last row. */
  lemma PageFacts(t: seq<Row>, limit: nat, cursor: Option<Row>)
    requires Sorted(t) && 1 <= limit
    ensures var p := PageAt(t, limit, cursor); var m := Matching(t, cursor);
            && p.items == (if |m| <= limit then m else m[..limit])
            && (p.next.None? <==> |m| <= limit)
            && (p.next.Some? ==> p.next.value == m[limit - 1] && Matching(t, p.next) == m[limit..])
  {
    PageShape(t, limit, cursor);
    if |Matching(t, cursor)| > limit { MatchingSuffix(t, cursor, limit - 1); }
    hide *;
  }

  // ----- Walking an unchanging list -----

  /** One page, with the reason the walk ends: fewer rows remain after it. */
  ghost function NextPage(t: seq<Row>, limit: nat, cursor: Option<Row>): (p: Page)
    requires Sorted(t) && 1 <= limit
    ensures p.next.Some? ==> |Matching(t, p.next)| < |Matching(t, cursor)|
  {
    PageFacts(t, limit, cursor);
    PageAt(t, limit, cursor)
  }

  /** All pages from the cursor on, following `next` until it is null. */
  ghost function Walk(t: seq<Row>, limit: nat, cursor: Option<Row>): seq<Page>
    requires Sorted(t) && 1 <= limit
    decreases |Matching(t, cursor)|
  {
    var p := NextPage(t, limit, cursor);
    if p.next.None? then [p] else [p] + Walk(t, limit, p.next)
  }

  ghost function Items(pages: seq<Page>): seq<Row> {
    if pages == [] then [] else pages[0].items + Items(pages[1..])
  }

  /** `pages` is n / limit rounded up, and 1 for an empty list. */
  ghost predicate IsPageCount(pages: nat, n: nat, limit: nat) {
    if n == 0 then pages == 1 else (pages - 1) * limit < n <= pages * limit
  }

  lemma PageCountStep(pages: nat, n: nat, limit: nat)
    requires 1 <= limit < n && IsPageCount(pages, n - limit, limit)
    ensures IsPageCount(pages + 1, n, limit)
  {
    assert (pages + 1) * limit == pages * limit + limit;
    assert (pages - 1) * limit + limit == pages * limit;
  }

  lemma ItemsCons(p: Page, rest: seq<Page>)
    ensures Items([p] + rest) == p.items + Items(rest)
  {
    assert ([p] + rest)[1..] == rest;
  }

  lemma OnePage(n: nat, limit: nat)
    requires n <= limit
    ensures IsPageCount(1, n, limit)
  {
  }

  /** A page with a successor is full, and the walk goes on with what remains. */
  lemma WalkMore(t: seq<Row>, limit: nat, cursor: Option<Row>)
    requires Sorted(t) && 1 <= limit && PageAt(t, limit, cursor).next.Some?
    ensures var p := PageAt(t, limit, cursor);
            && |p.items| == limit && |Matching(t, p.next)| + limit == |Matching(t, cursor)| > limit
            && p.items + Matching(t, p.next) == Matching(t, cursor)
            && Walk(t, limit, cursor) == [p] + Walk(t, limit, p.next)
  {
    PageFacts(t, limit, cursor);
    hide PageAt, Matching, Sorted;
  }

  lemma WalkLast(t: seq<Row>, limit: nat, cursor: Option<Row>)
    requires Sorted(t) && 1 <= limit && PageAt(t, limit, cursor).next.None?
    ensures var p := PageAt(t, limit, cursor);
            |p.items| <= limit && p.items == Matching(t, cursor) && Walk(t, limit, cursor) == [p]
  {
    PageFacts(t, limit, cursor);
    hide PageAt, Matching, Sorted;
  }

  lemma {:induction false} WalkItems(t: seq<Row>, limit: nat, cursor: Option<Row>)
    requires Sorted(t) && 1 <= limit
    ensures Items(Walk(t, limit, cursor)) == Matching(t, cursor)
    decreases |Matching(t, cursor)|
  {
    var p := PageAt(t, limit, cursor);
    if p.next.Some? {
      WalkMore(t, limit, cursor);
      hide *;
      WalkItems(t, limit, p.next);
      ItemsCons(p, Walk(t, limit, p.next));
    } else {
      WalkLast(t, limit, cursor);
      ItemsCons(p, []);
      assert [p] + [] == [p];
    }
  }

  lemma {:induction false} WalkCount(t: seq<Row>, limit: nat, cursor: Option<Row>)
    requires Sorted(t) && 1 <= limit
    ensures IsPageCount(|Walk(t, limit, cursor)|, |Matching(t, cursor)|, limit)
    decreases |Matching(t, cursor)|
  {
    hide *;
    var p, n := PageAt(t, limit, cursor), |Matching(t, cursor)|;
    if p.next.Some? {
      WalkMore(t, limit, cursor);
      WalkCount(t, limit, p.next);
      PageCountStep(|Walk(t, limit, p.next)|, n, limit);
    } else {
      WalkLast(t, limit, cursor);
      OnePage(n, limit);
    }
  }

  /** Every walk has a page, and only the last has no successor; only it may be short. */
  ghost predicate Full(pages: seq<Page>, limit: nat) {
    && pages != [] && pages[|pages| - 1].next.None?
    && forall i | 0 <= i < |pages| - 1 :: pages[i].next.Some? && |pages[i].items| == limit
  }

  lemma FullCons(p: Page, rest: seq<Page>, limit: nat)
    requires Full(rest, limit) && p.next.Some? && |p.items| == limit
    ensures Full([p] + rest, limit)
  {
  }

  lemma {:induction false} WalkFull(t: seq<Row>, limit: nat, cursor: Option<Row>)
    requires Sorted(t) && 1 <= limit
    ensures Full(Walk(t, limit, cursor), limit)
    decreases |Matching(t, cursor)|
  {
    var p := PageAt(t, limit, cursor);
    if p.next.Some? {
      WalkMore(t, limit, cursor);
      hide *;
      WalkFull(t, limit, p.next);
      FullCons(p, Walk(t, limit, p.next), limit);
    } else {
      WalkLast(t, limit, cursor);
    }
  }

  lemma MatchingAll(t: seq<Row>)
    ensures Matching(t, None) == t
  {
  }

  /**
   The keyset walk refines the sorted list: its pages concatenate to the whole list in order, all
   but the last are full, there are ceil(n / limit) of them (one when the list is empty), and only
   the last has no `next`.
   */
  lemma WalkRefinesList(t: seq<Row>, limit: nat)
    requires Sorted(t) && 1 <= limit
    ensures var pages := Walk(t, limit, None);
            && Items(pages) == t
            && IsPageCount(|pages|, |t|, limit)
            && Full(pages, limit)
  {
    MatchingAll(t);
    WalkItems(t, limit, None);
    WalkCount(t, limit, None);
    WalkFull(t, limit, None);
  }

  // ----- Walking a list that changes between pages -----

  /** `pages[i]` was read from `tables[i]` at the cursor the previous page returned; the walk may be unfinished. */
  ghost predicate IsWalk(tables: seq<seq<Row>>, limit: nat, cursor: Option<Row>, pages: seq<Page>)
    decreases |tables|
  {
    && |tables| == |pages|
    && (pages != [] ==>
          && pages[0] == PageAt(tables[0], limit, cursor)
          && (|pages| > 1 ==> pages[0].next.Some? && IsWalk(tables[1..], limit, pages[0].next, pages[1..])))
  }

  /** Where the walk would go on: after a last page with a successor, or at the first page. */
  function Frontier(cursor: Option<Row>, pages: seq<Page>): Option<Row> {
    if pages == [] then cursor else pages[|pages| - 1].next
  }

  ghost predicate Complete(pages: seq<Page>) { pages != [] && pages[|pages| - 1].next.None? }

  /** The rows of one page lie after the cursor, in order, and none after the next cursor. */
  lemma PageSorted(t: seq<Row>, limit: nat, cursor: Option<Row>)
    requires Sorted(t) && 1 <= limit
    ensures var p := PageAt(t, limit, cursor);
            && Sorted(p.items)
            && (cursor.Some? ==> forall row | row in p.items :: Before(cursor.value, row))
            && (p.next.Some? ==> p.next.value in p.items
                                 && forall i | 0 <= i < |p.items| :: p.items[i] == p.next.value || Before(p.items[i], p.next.value))
  {
    var p, m := PageAt(t, limit, cursor), Matching(t, cursor);
    PageFacts(t, limit, cursor);
    MatchingIsAfter(t, cursor);
    hide Matching, PageAt;
    if p.next.Some? {
      PrefixSorted(m, limit);
      assert m[..limit][limit - 1] == m[limit - 1];
    }
  }

  lemma WalkFirst(tables: seq<seq<Row>>, limit: nat, cursor: Option<Row>, pages: seq<Page>)
    requires IsWalk(tables, limit, cursor, pages) && pages != []
    ensures Items(pages) == pages[0].items + Items(pages[1..])
    ensures |pages| == 1 ==> Items(pages) == pages[0].items
    ensures |pages| > 1 ==> pages[0].next.Some? && IsWalk(tables[1..], limit, pages[0].next, pages[1..])
                            && Frontier(pages[0].next, pages[1..]) == Frontier(cursor, pages)
  {
    assert pages == [pages[0]] + pages[1..];
    ItemsCons(pages[0], pages[1..]);
    if |pages| == 1 { assert pages[1..] == [] && Items([]) == []; }
  }

  /** The rows of a walk, however far it got, are in strict order and all after its first cursor. */
  lemma {:induction false} WalkSorted(tables: seq<seq<Row>>, limit: nat, cursor: Option<Row>, pages: seq<Page>)
    requires 1 <= limit && (forall i | 0 <= i < |tables| :: Sorted(tables[i])) && IsWalk(tables, limit, cursor, pages)
    ensures Sorted(Items(pages))
    ensures cursor.Some? ==> forall row | row in Items(pages) :: Before(cursor.value, row)
    decreases |tables|
  {
    if pages != [] {
      var p := pages[0];
      PageSorted(tables[0], limit, cursor);
      WalkFirst(tables, limit, cursor, pages);
      if |tables| > 1 {
        hide Items, IsWalk, PageAt, Sorted;
        WalkSorted(tables[1..], limit, p.next, pages[1..]);
        SortedAppend(p.items, Items(pages[1..]), p.next.value);
      }
    }
  }

  lemma PrefixSorted(m: seq<Row>, limit: nat)
    requires Sorted(m) && 1 <= limit <= |m|
    ensures Sorted(m[..limit])
    ensures forall i | 0 <= i < limit :: m[i] == m[limit - 1] || Before(m[i], m[limit - 1])
  {
  }

  /** A row of one page's table, after the cursor, is on the page or after its last row. */
  lemma PageCovers(t: seq<Row>, limit: nat, cursor: Option<Row>, row: Row)
    requires Sorted(t) && 1 <= limit && row in t && (cursor.Some? ==> Before(cursor.value, row))
    ensures var p := PageAt(t, limit, cursor); row in p.items || (p.next.Some? && Before(p.next.value, row))
  {
    var m, p := Matching(t, cursor), PageAt(t, limit, cursor);
    PageFacts(t, limit, cursor);
    MatchingIsAfter(t, cursor);
    hide Matching, PageAt;
    var k :| 0 <= k < |m| && m[k] == row;
    if p.next.Some? {
      if k < limit { assert p.items[k] == row; } else { Position(m, limit - 1, k); }
    }
  }

  /** A row present throughout is among the rows returned so far, or lies beyond where the walk would go on. */
  lemma {:induction false} WalkCovers(tables: seq<seq<Row>>, limit: nat, cursor: Option<Row>, pages: seq<Page>, row: Row)
    requires 1 <= limit && (forall i | 0 <= i < |tables| :: Sorted(tables[i])) && IsWalk(tables, limit, cursor, pages)
    requires pages != [] && (forall i | 0 <= i < |tables| :: row in tables[i]) && (cursor.Some? ==> Before(cursor.value, row))
    ensures row in Items(pages) || (Frontier(cursor, pages).Some? && Before(Frontier(cursor, pages).value, row))
    decreases |tables|
  {
    PageCovers(tables[0], limit, cursor, row);
    WalkFirst(tables, limit, cursor, pages);
    hide Items, IsWalk, PageAt, Sorted;
    if |tables| > 1 && row !in pages[0].items {
      WalkCovers(tables[1..], limit, pages[0].next, pages[1..], row);
    }
  }

  lemma SortedAppend(a: seq<Row>, b: seq<Row>, last: Row)
    requires Sorted(a) && Sorted(b)
    requires (forall i | 0 <= i < |a| :: a[i] == last || Before(a[i], last)) && forall row | row in b :: Before(last, row)
    ensures Sorted(a + b)
  {
    var s := a + b;
    forall i, j | 0 <= i < j < |s| ensures Before(s[i], s[j]) {
      if i < |a| <= j {
        assert s[j] in b;
      }
    }
  }

  /**
   Under arbitrary inserts and deletes between pages no row is returned twice, however far the walk got,
   and a complete walk has returned every row present throughout.
   */
  lemma NothingRepeatedOrMissed(tables: seq<seq<Row>>, limit: nat, pages: seq<Page>)
    requires 1 <= limit && (forall i | 0 <= i < |tables| :: Sorted(tables[i])) && IsWalk(tables, limit, None, pages)
    ensures Distinct(Items(pages)) && Sorted(Items(pages))
    ensures Complete(pages) ==> forall row | (forall i | 0 <= i < |tables| :: row in tables[i]) :: row in Items(pages)
  {
    WalkSorted(tables, limit, None, pages);
    if Complete(pages) {
      forall row | (forall i | 0 <= i < |tables| :: row in tables[i]) ensures row in Items(pages) {
        WalkCovers(tables, limit, None, pages, row);
      }
    }
    forall i, j | 0 <= i < j < |Items(pages)| ensures Items(pages)[i] != Items(pages)[j] {
      assert Before(Items(pages)[i], Items(pages)[j]);
    }
  }

  // ----- What a request returns -----

  /** Limits from 1 to 100 are served; without one the page holds fifty. */
  ghost predicate Serves(limit: LimitArg, n: int) {
    (limit == NoLimit && n == 50) || (limit == Limit(n) && 1 <= n <= 100)
  }

  /** `m` lists the rows of `t` strictly after the cursor, newest first. */
  ghost predicate RowsAfter(t: seq<Row>, cursor: CursorArg, m: seq<Row>) {
    Sorted(m) && forall row :: row in m <==> row in t && (cursor.At? ==> Before(cursor.cursor, row))
  }

  lemma RowsAfterUnique(t: seq<Row>, cursor: CursorArg, m: seq<Row>)
    requires Sorted(t) && RowsAfter(t, cursor, m)
    ensures m == Matching(t, if cursor.At? then Some(cursor.cursor) else None)
  {
    var c := if cursor.At? then Some(cursor.cursor) else None;
    MatchingIsAfter(t, c);
    SortedUnique(m, Matching(t, c));
  }

  /** A request is refused exactly for a limit outside 1..100 or, failing that, a cursor that does not decode. */
  lemma RefusedExactly(t: seq<Row>, limit: LimitArg, cursor: CursorArg)
    ensures Paginate(t, limit, cursor).BadLimit? <==> forall n :: !Serves(limit, n)
    ensures Paginate(t, limit, cursor).BadCursor? <==> cursor.Malformed? && exists n :: Serves(limit, n)
    ensures Paginate(t, limit, cursor).Found? <==> !cursor.Malformed? && exists n :: Serves(limit, n)
  {
    assert limit == NoLimit ==> Serves(limit, 50);
    assert limit.Limit? && 1 <= limit.n <= 100 ==> Serves(limit, limit.n);
    hide PageAt;
  }

  /**
   The page of a served request: the first of the rows after the cursor, as many as asked for, and a next
   cursor exactly when more rows follow, at the last row of the page.
   */
  lemma PaginateExactly(t: seq<Row>, limit: LimitArg, cursor: CursorArg, n: nat, m: seq<Row>)
    requires Sorted(t) && Serves(limit, n) && !cursor.Malformed? && RowsAfter(t, cursor, m)
    ensures Paginate(t, limit, cursor) == Found(if |m| <= n then Page(m, None) else Page(m[..n], Some(m[n - 1])))
  {
    RowsAfterUnique(t, cursor, m);
    PageShape(t, n, if cursor.At? then Some(cursor.cursor) else None);
    hide PageAt, Matching, RowsAfter;
  }

  lemma ServedIsPage(t: seq<Row>, limit: LimitArg, cursor: Option<Row>, n: nat)
    requires Serves(limit, n)
    ensures Paginate(t, limit, if cursor.Some? then At(cursor.value) else NoCursor) == Found(PageAt(t, n, cursor))
  {
    hide PageAt;
  }

  /** A client's requests: the first from `cursor`, each further one with the `next` of the page before. */
  ghost predicate Requests(tables: seq<seq<Row>>, limit: LimitArg, cursor: CursorArg, pages: seq<Page>)
    decreases |tables|
  {
    && |tables| == |pages|
    && (pages != [] ==>
          && Paginate(tables[0], limit, cursor) == Found(pages[0])
          && (|pages| > 1 ==> pages[0].next.Some? && Requests(tables[1..], limit, At(pages[0].next.value), pages[1..])))
  }

  lemma {:induction false} RequestsWalk(tables: seq<seq<Row>>, limit: LimitArg, cursor: Option<Row>, pages: seq<Page>, n: nat)
    requires Serves(limit, n) && Requests(tables, limit, if cursor.Some? then At(cursor.value) else NoCursor, pages)
    ensures IsWalk(tables, n, cursor, pages)
    decreases |tables|
  {
    if pages != [] {
      ServedIsPage(tables[0], limit, cursor, n);
      hide PageAt, Paginate;
      if |pages| > 1 { RequestsWalk(tables[1..], limit, pages[0].next, pages[1..], n); }
    }
  }

  lemma ServedSome(t: seq<Row>, limit: LimitArg, cursor: CursorArg) returns (n: nat)
    requires Paginate(t, limit, cursor).Found?
    ensures Serves(limit, n) && !cursor.Malformed?
  {
    n := if limit.Limit? then limit.n else 50;
  }

  /** Requests against a table that does not change are the pages of the walk, as far as they go. */
  lemma {:induction false} SteadyWalk(t: seq<Row>, k: nat, n: nat, cursor: Option<Row>, pages: seq<Page>)
    requires Sorted(t) && 1 <= n && IsWalk(seq(k, _ => t), n, cursor, pages) && Complete(pages)
    ensures pages == Walk(t, n, cursor)
    decreases k
  {
    var tables := seq(k, _ => t);
    var p := pages[0];
    assert p == PageAt(t, n, cursor);
    if |pages| > 1 {
      assert tables[1..] == seq(k - 1, _ => t);
      WalkMore(t, n, cursor);
      SteadyWalk(t, k - 1, n, p.next, pages[1..]);
      assert pages == [p] + pages[1..];
    } else {
      WalkLast(t, n, cursor);
      assert pages == [p];
    }
  }

  /**
   Requesting page after page of a list that does not change returns the whole list in order, in ceil(n /
   limit) pages, all but the last full.
   */
  lemma RequestsRefineList(t: seq<Row>, limit: LimitArg, n: nat, k: nat, pages: seq<Page>)
    requires Sorted(t) && Serves(limit, n) && Requests(seq(k, _ => t), limit, NoCursor, pages) && Complete(pages)
    ensures Items(pages) == t && IsPageCount(|pages|, |t|, n) && Full(pages, n)
  {
    RequestsWalk(seq(k, _ => t), limit, None, pages, n);
    hide *;
    SteadyWalk(t, k, n, None, pages);
    WalkRefinesList(t, n);
  }

  /** Such requests do come to an end: following `next` from any cursor is served to the last page. */
  lemma {:induction false} WalkRequested(t: seq<Row>, limit: LimitArg, n: nat, cursor: Option<Row>)
    requires Sorted(t) && Serves(limit, n)
    ensures var pages := Walk(t, n, cursor);
            && Requests(seq(|pages|, _ => t), limit, if cursor.Some? then At(cursor.value) else NoCursor, pages)
            && Complete(pages)
    decreases |Matching(t, cursor)|
  {
    var p, pages := PageAt(t, n, cursor), Walk(t, n, cursor);
    ServedIsPage(t, limit, cursor, n);
    if p.next.Some? {
      WalkMore(t, n, cursor);
      WalkRequested(t, limit, n, p.next);
      var rest := Walk(t, n, p.next);
      assert pages == [p] + rest && pages[1..] == rest;
      assert seq(|pages|, _ => t)[1..] == seq(|rest|, _ => t);
      hide PageAt, Paginate;
    } else {
      WalkLast(t, n, cursor);
      hide PageAt, Paginate;
    }
  }

  /**
   Requesting page after page of a list that changes in between returns no row twice, however far it got, and
   once a page without `next` was returned every row present throughout.
   */
  lemma RequestsNeverRepeatOrMiss(tables: seq<seq<Row>>, limit: LimitArg, pages: seq<Page>)
    requires (forall i | 0 <= i < |tables| :: Sorted(tables[i])) && Requests(tables, limit, NoCursor, pages)
    ensures Distinct(Items(pages)) && Sorted(Items(pages))
    ensures Complete(pages) ==> forall row | (forall i | 0 <= i < |tables| :: row in tables[i]) :: row in Items(pages)
  {
    if pages != [] {
      var n := ServedSome(tables[0], limit, NoCursor);
      RequestsWalk(tables, limit, None, pages, n);
      hide Paginate, Requests, IsWalk, Items, Sorted;
      NothingRepeatedOrMissed(tables, n, pages);
    }
  }
}
