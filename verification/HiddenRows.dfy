/** Lost rows. */
module HiddenRows {
  // What becomes of a row that one cursor's clause cannot see, through the rest of the walk.

  import opened Options
  import opened OrderedSeqs
  import opened Sql
  import opened Keyset
  import opened PageWalk

  /** Pages fetched one after the other along NextCursor, from tables that hold any NULLs but none in the primary key. */
  ghost predicate IsFetched(d: Dialect, pk: seq<string>, q: Query, tables: seq<seq<Row>>, pages: seq<Page>) {
    && pk != [] && |tables| == |pages| > 0
    && q.orderBy != [] && q.after.None? && q.before.None? && q.limit.Some? && q.limit.value > 0
    && (forall i, r | 0 <= i < |tables| && r in tables[i] :: KeyPresent(pk, r))
    && (forall i | 0 <= i < |pages| :: RunPage(d, tables[i], pk, StepQuery(q, pages, i)) == Ok(pages[i]))
    && (forall i | 0 <= i < |pages| - 1 :: pages[i].hasMore)
  }

  /** The clause of a cursor is not TRUE on the row: it does not sort after the cursor, or it is hidden from it. */
  predicate Lost(d: Dialect, order: seq<OrderBy>, cursor: Row, x: Row) {
    !RowBefore(d, order, cursor, x) || Hidden(d, order, KeyOf(order, cursor), x)
  }

  /** A row that is lost at one cursor is lost at every row the cursor's clause lets through. */
  lemma LostStays(d: Dialect, order: seq<OrderBy>, cursor: Row, next: Row, x: Row)
    requires Lost(d, order, cursor, x) && !Lost(d, order, cursor, next)
    ensures Lost(d, order, next, x)
  {
    var a, b, c := KeyOf(order, cursor), KeyOf(order, next), KeyOf(order, x);
    if RowBefore(d, order, next, x) {
      KeyBeforeTransitive(d, order, a, b, c);
      HiddenAgain(d, order, a, b, next, x);
    }
  }

  lemma HiddenAgain(d: Dialect, order: seq<OrderBy>, a: seq<Value>, b: seq<Value>, next: Row, x: Row)
    requires |a| == |order| && b == KeyOf(order, next)
    requires Hidden(d, order, a, x) && KeyBefore(d, order, a, b) && !Hidden(d, order, a, next)
    requires KeyBefore(d, order, b, KeyOf(order, x))
    ensures Hidden(d, order, b, x)
  {
    var c := KeyOf(order, x);
    var k, m, j := FirstDifference(a, c), FirstDifference(a, b), FirstDifference(b, c);
    KeyBeforeAt(d, order, a, b);
    KeyBeforeAt(d, order, b, c);
    if m < k {
      EarlierDifference(a, b, c, m, k, j);
    } else {
      SameDifference(a, b, c, m, k, j);
    }
  }

  lemma EarlierDifference(a: seq<Value>, b: seq<Value>, c: seq<Value>, m: nat, k: nat, j: nat)
    requires |a| == |b| == |c| && m < k <= |a| && m == FirstDifference(a, b) && k == FirstDifference(a, c) && j == FirstDifference(b, c)
    ensures j == m && c[m] == a[m]
  {
    assert a[m] == a[..k][m] == c[..k][m] == c[m];
    assert c[..m] == c[..k][..m] == a[..k][..m] == a[..m] == b[..m];
    PrefixStop(b, c, m, j);
  }

  lemma SameDifference(a: seq<Value>, b: seq<Value>, c: seq<Value>, m: nat, k: nat, j: nat)
    requires |a| == |b| == |c| && k < |a| && k <= m && m == FirstDifference(a, b) && k == FirstDifference(a, c) && j == FirstDifference(b, c)
    requires b[k] != c[k]
    ensures j == k
  {
    assert b[..k] == b[..m][..k] == a[..m][..k] == a[..k] == c[..k];
    PrefixStop(b, c, k, j);
  }

  /** The rows of a page with a cursor are those its clause is TRUE on. */
  lemma PageIsNotLost(d: Dialect, table: seq<Row>, pk: seq<string>, q: Query, cursor: Row, page: Page, r: Row)
    requires pk != [] && q.orderBy != [] && KeyPresent(pk, cursor) && RunPage(d, table, pk, q) == Ok(page)
    requires q.before.None? && q.after == Some(CursorFor(CursorOrder(q.orderBy, pk), cursor)) && r in page.items
    ensures r in table && !Lost(d, CursorOrder(q.orderBy, pk), cursor, r)
  {
    var order := CursorOrder(q.orderBy, pk);
    CursorOrderCovers(q.orderBy, pk);
    var vals, wheres := KeyOf(order, cursor), PageWheres(q, order).value;
    FallbackUnreachable(q.orderBy, pk, cursor);
    assert Pinned(order, vals) && wheres == q.wheres + [Clause(order, vals).value];
    hide Clause, Pinned, AtVeryEnd, RowBefore, Less;
    ItemWasSelected(d, table, pk, q, wheres, page, r);
    AppendWhere(q.wheres, Clause(order, vals).value, r);
    ClauseExact(d, order, vals, r);
    AsRows(d, order, cursor, r);
  }

  lemma AsRows(d: Dialect, order: seq<OrderBy>, cursor: Row, r: Row)
    ensures RowBefore(d, order, cursor, r) == KeyBefore(d, order, KeyOf(order, cursor), KeyOf(order, r))
  {
  }

  lemma ItemWasSelected(d: Dialect, table: seq<Row>, pk: seq<string>, q: Query, wheres: seq<Where>, page: Page, r: Row)
    requires pk != [] && q.orderBy != [] && q.before.None? && RunPage(d, table, pk, q) == Ok(page) && r in page.items
    requires CursorOrder(q.orderBy, pk) != [] && PageWheres(q, CursorOrder(q.orderBy, pk)) == Ok(wheres)
    ensures r in table && Matches(wheres)(r)
  {
    var order := CursorOrder(q.orderBy, pk);
    hide Sort, Filter, PageWheres, CursorOrder;
    SortElements(Less(d, order), Filter(Matches(wheres), table));
    FilterElements(Matches(wheres), table);
    var all := Ordered(d, table, wheres, order);
    assert r in all;
  }

  /** Each page but the last ends in a row of its table, which is the next page's cursor. */
  lemma NextCursor(d: Dialect, pk: seq<string>, q: Query, tables: seq<seq<Row>>, pages: seq<Page>, i: nat)
    requires IsFetched(d, pk, q, tables, pages) && 0 < i < |pages|
    ensures LastRow(pages[i - 1]).Some? && KeyPresent(pk, LastRow(pages[i - 1]).value)
    ensures LastRow(pages[i - 1]).value in pages[i - 1].items
    ensures pages[i - 1].next == Some(CursorFor(CursorOrder(q.orderBy, pk), LastRow(pages[i - 1]).value))
  {
    var step := StepQuery(q, pages, i - 1);
    var order := CursorOrder(q.orderBy, pk);
    CursorOrderCovers(q.orderBy, pk);
    assert RunPage(d, tables[i - 1], pk, step) == Ok(pages[i - 1]) && pages[i - 1].hasMore;
    hide PageWheres, CursorOrder, Sort, Filter, KeyPresent;
    var last := pages[i - 1].items[|pages[i - 1].items| - 1];
    assert last in pages[i - 1].items;
    ItemWasSelected(d, tables[i - 1], pk, step, PageWheres(step, order).value, pages[i - 1], last);
  }

  /** What the clause of one cursor cannot see does not come back on that page or on any later one, whatever the tables hold. */
  lemma {:induction false} HiddenRowNeverReturns(d: Dialect, pk: seq<string>, q: Query, tables: seq<seq<Row>>, pages: seq<Page>, i: nat, j: nat, x: Row)
    requires IsFetched(d, pk, q, tables, pages) && 0 < i <= j < |pages|
    requires LastRow(pages[i - 1]).Some? && Lost(d, CursorOrder(q.orderBy, pk), LastRow(pages[i - 1]).value, x)
    ensures x !in pages[j].items
    ensures LastRow(pages[j - 1]).Some? && Lost(d, CursorOrder(q.orderBy, pk), LastRow(pages[j - 1]).value, x)
    decreases j
  {
    var order := CursorOrder(q.orderBy, pk);
    hide RunPage, Lost, CursorOrder, KeyPresent;
    if i < j {
      HiddenRowNeverReturns(d, pk, q, tables, pages, i, j - 1, x);
      NextCursor(d, pk, q, tables, pages, j - 1);
      NextCursor(d, pk, q, tables, pages, j);
      var cursor, next := LastRow(pages[j - 2]).value, LastRow(pages[j - 1]).value;
      PageIsNotLost(d, tables[j - 1], pk, StepQuery(q, pages, j - 1), cursor, pages[j - 1], next);
      LostStays(d, order, cursor, next, x);
    }
    NextCursor(d, pk, q, tables, pages, j);
    if x in pages[j].items {
      PageIsNotLost(d, tables[j], pk, StepQuery(q, pages, j), LastRow(pages[j - 1]).value, pages[j], x);
    }
  }
}
