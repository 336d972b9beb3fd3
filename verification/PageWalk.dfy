/** Pages and walks. */
module PageWalk {
  // The keyset page query and the walks a client makes with its cursors. A page is cut from what the database returns
  // for a filter and an ordering; on a fixed table the pages of a walk are consecutive slices of that result, and when
  // rows come and go between pages the walk still never goes back, repeats no row and misses no row that stayed where it
  // was.

  import opened Options
  import opened Sql
  import opened Keyset
  import opened OrderedSeqs

  /** An opaque cursor string: the ordering columns and values of one row, or text no page query produced. */
  datatype Cursor = Garbled | Cursor(columns: seq<string>, vals: seq<Value>)

  datatype Query = Query(orderBy: seq<OrderBy>, limit: Option<int>, after: Option<Cursor>, before: Option<Cursor>, wheres: seq<Where>)

  datatype Page = Page(items: seq<Row>, next: Option<Cursor>, previous: Option<Cursor>, hasMore: bool, hasPrev: bool)

  function Matches(wheres: seq<Where>): Row -> bool {
    (r: Row) => EvalAnd(wheres, r).True?
  }

  /** What the database returns, in full, for a filter and an ordering. */
  function Ordered(d: Dialect, table: seq<Row>, wheres: seq<Where>, order: seq<OrderBy>): seq<Row> {
    Sort(Less(d, order), Filter(Matches(wheres), table))
  }

  function Take<T>(n: nat, s: seq<T>): seq<T> { if n < |s| then s[..n] else s }

  function CursorFor(order: seq<OrderBy>, row: Row): Cursor {
    Cursor(seq(|order|, i requires 0 <= i < |order| => order[i].column), KeyOf(order, row))
  }

  predicate CursorFits(c: Cursor, order: seq<OrderBy>) {
    && c.Cursor? && |c.columns| == |order| && |c.vals| == |order|
    && forall i | 0 <= i < |order| :: c.columns[i] == order[i].column
  }

  function Resume(q: Query): Option<Cursor> { if q.after.Some? then q.after else q.before }

  function CursorAt(order: seq<OrderBy>, all: seq<Row>, i: nat): Option<Cursor>
    requires i <= |all|
  {
    if i == 0 then None else Some(CursorFor(order, all[i - 1]))
  }

  /** The filters of the query, with the predicate of its cursor. */
  function PageWheres(q: Query, order: seq<OrderBy>): Result<seq<Where>>
    requires order != []
  {
    match Resume(q)
    case None => Ok(q.wheres)
    case Some(c) =>
      if !CursorFits(c, order) then Err(InvalidCursor)
      else
        var clause := Clause(Way(order, q.before.Some?), c.vals);
        if clause.Err? then Err(clause.error) else Ok(q.wheres + [clause.value])
  }

  /** The page built from the n + 1 rows the query fetched. */
  function Assemble(q: Query, order: seq<OrderBy>, n: nat, fetched: seq<Row>): Page {
    var boundary := |fetched| > n;
    var kept := Take(n, fetched);
    var items := if q.before.Some? then Reverse(kept) else kept;
    var hasMore := q.before.Some? || boundary;
    var hasPrev := if q.before.Some? then boundary else q.after.Some?;
    Page(items,
         if items != [] && hasMore then Some(CursorFor(order, items[|items| - 1])) else None,
         if items != [] && hasPrev then Some(CursorFor(order, items[0])) else None,
         hasMore, hasPrev)
  }

  function RunPage(d: Dialect, table: seq<Row>, pk: seq<string>, q: Query): Result<Page>
    requires pk != []
  {
    if q.orderBy == [] then Err(CursorNeedsOrderBy)
    else if q.limit.None? then Err(PaginationNeedsLimit)
    else if q.limit.value <= 0 then Err(InvalidPageSize)
    else
      var order := CursorOrder(q.orderBy, pk);
      CursorOrderCovers(q.orderBy, pk);
      var wheres := PageWheres(q, order);
      if wheres.Err? then Err(wheres.error)
      else
        var n: nat := q.limit.value;
        Ok(Assemble(q, order, n,
                    Take(n + 1, Ordered(d, table, wheres.value, if q.before.Some? then Invert(order) else order))))
  }

  method BuildWheres(q: Query, order: seq<OrderBy>, queryOrder: seq<OrderBy>) returns (r: Result<seq<Where>>)
    requires order != [] && queryOrder == if q.before.Some? then Invert(order) else order
    ensures r == PageWheres(q, order)
  {
    var cursor := if q.after.Some? then q.after else q.before;
    if cursor.None? { return Ok(q.wheres); }
    if !CursorFits(cursor.value, order) { return Err(InvalidCursor); }
    var clause := BuildClause(queryOrder, cursor.value.vals);
    if clause.Err? { return Err(clause.error); }
    r := Ok(q.wheres + [clause.value]);
  }

  method BuildPage(q: Query, order: seq<OrderBy>, pageSize: nat, fetched: seq<Row>) returns (page: Page)
    ensures page == Assemble(q, order, pageSize, fetched)
  {
    var hasBoundary := |fetched| > pageSize;
    var items := if hasBoundary then fetched[..pageSize] else fetched;
    if q.before.Some? {
      var buffer := new Row[|items|](i requires 0 <= i < |items| => items[i]);
      assert buffer[..] == items;
      ReverseInPlace(buffer);
      items := buffer[..];
    }
    var hasMore := q.before.Some? || hasBoundary;
    var hasPrev := if q.before.Some? then hasBoundary else q.after.Some?;
    var next, previous := None, None;
    if |items| > 0 {
      if hasMore { next := Some(CursorFor(order, items[|items| - 1])); }
      if hasPrev { previous := Some(CursorFor(order, items[0])); }
    }
    page := Page(items, next, previous, hasMore, hasPrev);
  }

  method FetchPage(d: Dialect, table: seq<Row>, pk: seq<string>, q: Query) returns (r: Result<Page>)
    requires pk != []
    ensures r == RunPage(d, table, pk, q)
  {
    hide Assemble, Ordered, PageWheres, CursorOrder;
    if q.orderBy == [] { return Err(CursorNeedsOrderBy); }
    if q.limit.None? { return Err(PaginationNeedsLimit); }
    if q.limit.value <= 0 { return Err(InvalidPageSize); }
    var pageSize: nat := q.limit.value;
    var order := BuildCursorOrder(q.orderBy, pk);
    CursorOrderCovers(q.orderBy, pk);
    var queryOrder := order;
    if q.before.Some? { queryOrder := BuildInverted(order); }
    var wheres := BuildWheres(q, order, queryOrder);
    if wheres.Err? { return Err(wheres.error); }
    var page := BuildPage(q, order, pageSize, Take(pageSize + 1, Ordered(d, table, wheres.value, queryOrder)));
    r := Ok(page);
  }

  // ---- Which queries are refused -------------------------------------------------------------

  /** The cursor was made for this ordering: it names its columns, in order, with a value for each. */
  predicate MadeFor(c: Cursor, order: seq<OrderBy>) {
    && c.Cursor?
    && c.columns == seq(|order|, i requires 0 <= i < |order| => order[i].column)
    && |c.vals| == |order|
  }

  /** A value of the cursor is NULL in a column whose NULLs the caller did not place. */
  predicate UnplacedNull(c: Cursor, order: seq<OrderBy>) {
    c.Cursor? && |c.vals| == |order| && exists i | 0 <= i < |order| :: c.vals[i].Null? && order[i].nulls.NullsDefault?
  }

  /** Exactly when a page is refused, and which error is reported when several apply. */
  lemma PageErrors(d: Dialect, table: seq<Row>, pk: seq<string>, q: Query)
    requires pk != []
    ensures var r := RunPage(d, table, pk, q);
            var order := CursorOrder(q.orderBy, pk);
            var cursor := if q.after.Some? then q.after else q.before;
            var sized := q.orderBy != [] && q.limit.Some? && q.limit.value > 0;
            && (r == Err(CursorNeedsOrderBy) <==> q.orderBy == [])
            && (r == Err(PaginationNeedsLimit) <==> q.orderBy != [] && q.limit.None?)
            && (r == Err(InvalidPageSize) <==> q.orderBy != [] && q.limit.Some? && q.limit.value <= 0)
            && (r == Err(InvalidCursor) <==> sized && cursor.Some? && !MadeFor(cursor.value, order))
            && (r == Err(CursorColumnNullable) <==>
                sized && cursor.Some? && MadeFor(cursor.value, order) && UnplacedNull(cursor.value, order))
            && (r.Ok? <==> sized && (cursor.Some? ==> MadeFor(cursor.value, order) && !UnplacedNull(cursor.value, order)))
  {
    var order := CursorOrder(q.orderBy, pk);
    CursorOrderCovers(q.orderBy, pk);
    var cursor := if q.after.Some? then q.after else q.before;
    if cursor.Some? {
      FitsIfMade(cursor.value, order);
      if MadeFor(cursor.value, order) {
        PlacedIfPinned(cursor.value, order, q.before.Some?);
      }
    }
    hide CursorOrder, Ordered, Assemble;
  }

  lemma FitsIfMade(c: Cursor, order: seq<OrderBy>)
    ensures CursorFits(c, order) <==> MadeFor(c, order)
  {
    if c.Cursor? && |c.columns| == |order| {
      assert CursorFits(c, order) ==> c.columns == seq(|order|, i requires 0 <= i < |order| => order[i].column);
    }
  }

  lemma PlacedIfPinned(c: Cursor, order: seq<OrderBy>, back: bool)
    requires MadeFor(c, order)
    ensures Pinned(Way(order, back), c.vals) <==> !UnplacedNull(c, order)
  {
    var way := Way(order, back);
    assert forall i | 0 <= i < |order| :: way[i].nulls.NullsDefault? <==> order[i].nulls.NullsDefault?;
  }

  // ---- One page is a slice of the ordered result --------------------------------------------

  /** A table with a primary key, none of whose NULLs sits under an unpinned ordering column. */
  ghost predicate Pageable(table: seq<Row>, pk: seq<string>, orderBy: seq<OrderBy>) {
    && orderBy != [] && pk != []
    && (forall i, j | 0 <= i < j < |table| :: KeysDiffer(pk, table[i], table[j]))
    && (forall r | r in table :: PageableRow(r, pk, orderBy))
  }

  ghost predicate PageableRow(r: Row, pk: seq<string>, orderBy: seq<OrderBy>) {
    KeyPresent(pk, r) && PinnedFor(CursorOrder(orderBy, pk), r)
  }

  lemma OrderIsTotal(d: Dialect, table: seq<Row>, pk: seq<string>, orderBy: seq<OrderBy>)
    requires Pageable(table, pk, orderBy)
    ensures Distinct(table)
    ensures TotalOn(Less(d, CursorOrder(orderBy, pk)), table)
  {
    var order := CursorOrder(orderBy, pk);
    var lt := Less(d, order);
    forall x | x in table ensures !lt(x, x) {
      KeyBeforeIrreflexive(d, order, KeyOf(order, x));
    }
    forall x, y | x in table && y in table && x != y ensures lt(x, y) || lt(y, x) {
      var i :| 0 <= i < |table| && table[i] == x;
      var j :| 0 <= j < |table| && table[j] == y;
      if i < j {
        CursorOrderSeparates(d, orderBy, pk, x, y);
      } else {
        assert KeysDiffer(pk, table[j], table[i]);
        CursorOrderSeparates(d, orderBy, pk, y, x);
      }
    }
    forall x, y, z | x in table && y in table && z in table && lt(x, y) && lt(y, z) ensures lt(x, z) {
      KeyBeforeTransitive(d, order, KeyOf(order, x), KeyOf(order, y), KeyOf(order, z));
    }
    forall i, j | 0 <= i < j < |table| ensures table[i] != table[j] {
      assert KeysDiffer(pk, table[i], table[j]);
    }
  }

  lemma {:induction false} FilterFilter(p: Row -> bool, q: Row -> bool, r: Row -> bool, s: seq<Row>)
    requires forall x | x in s :: p(x) <==> q(x) && r(x)
    ensures Filter(p, s) == Filter(q, Filter(r, s))
  {
    if s != [] {
      assert s[0] in s;
      FilterFilter(p, q, r, s[1..]);
    }
  }

  lemma TotalOnPart(lt: (Row, Row) -> bool, keep: Row -> bool, s: seq<Row>)
    requires TotalOn(lt, s) && Distinct(s)
    ensures TotalOn(lt, Filter(keep, s)) && Distinct(Filter(keep, s))
  {
    FilterElements(keep, s);
    FilterDistinct(keep, s);
  }

  /** Is the cursor clause of `cursor`, in the given direction, the row order itself? */
  lemma CursorClause(d: Dialect, pk: seq<string>, q: Query, cursor: Row)
    requires pk != [] && q.orderBy != [] && PageableRow(cursor, pk, q.orderBy)
    requires Resume(q) == Some(CursorFor(CursorOrder(q.orderBy, pk), cursor))
    ensures CursorOrder(q.orderBy, pk) != [] && PageWheres(q, CursorOrder(q.orderBy, pk)).Ok?
    ensures var order := CursorOrder(q.orderBy, pk);
            forall x | PageableRow(x, pk, q.orderBy) ::
              Matches(PageWheres(q, order).value)(x) <==>
              Matches(q.wheres)(x) && (if q.before.Some? then RowBefore(d, order, x, cursor) else RowBefore(d, order, cursor, x))
  {
    var order := CursorOrder(q.orderBy, pk);
    CursorOrderCovers(q.orderBy, pk);
    FallbackUnreachable(q.orderBy, pk, cursor);
    DirectedClause(d, order, q.before.Some?, cursor, cursor);
    hide Clause, RowBefore, KeyPresent, Matches;
    var clause := Clause(Way(order, q.before.Some?), KeyOf(order, cursor)).value;
    forall x | PageableRow(x, pk, q.orderBy)
      ensures Matches(q.wheres + [clause])(x) <==>
              Matches(q.wheres)(x) && (if q.before.Some? then RowBefore(d, order, x, cursor) else RowBefore(d, order, cursor, x))
    {
      DirectedClause(d, order, q.before.Some?, cursor, x);
      AppendWhere(q.wheres, clause, x);
    }
  }

  function Way(order: seq<OrderBy>, back: bool): seq<OrderBy> {
    if back then Invert(order) else order
  }

  /** The clause of a cursor, forward or backward, on one row. */
  lemma DirectedClause(d: Dialect, order: seq<OrderBy>, back: bool, cursor: Row, x: Row)
    requires order != [] && PinnedFor(order, cursor) && PinnedFor(order, x)
    requires exists i | 0 <= i < |order| :: !Get(cursor, order[i].column).Null?
    ensures Clause(Way(order, back), KeyOf(order, cursor)).Ok?
    ensures Eval(Clause(Way(order, back), KeyOf(order, cursor)).value, x).True? <==>
            if back then RowBefore(d, order, x, cursor) else RowBefore(d, order, cursor, x)
  {
    var way := Way(order, back);
    var vals := KeyOf(order, cursor);
    assert KeyOf(way, cursor) == vals && KeyOf(way, x) == KeyOf(order, x);
    var e :| 0 <= e < |order| && !Get(cursor, order[e].column).Null?;
    assert !Get(cursor, way[e].column).Null?;
    PinnedIsExact(d, way, cursor, x);
    InvertMirrors(d, order, vals, KeyOf(order, x));
  }

  lemma AppendWhere(ws: seq<Where>, w: Where, x: Row)
    ensures Matches(ws + [w])(x) <==> Matches(ws)(x) && Eval(w, x).True?
  {
    var all := ws + [w];
    AndIsTrue(ws, x);
    AndIsTrue(all, x);
    assert all[|ws|] == w && forall i | 0 <= i < |ws| :: all[i] == ws[i];
  }

  /** The rows past a cursor, whether or not the cursor's row still exists. */
  lemma ForwardPage(d: Dialect, table: seq<Row>, pk: seq<string>, q: Query, cursor: Row, keep: Row -> bool)
    requires Pageable(table, pk, q.orderBy) && PageableRow(cursor, pk, q.orderBy)
    requires q.before.None? && q.after == Some(CursorFor(CursorOrder(q.orderBy, pk), cursor))
    requires q.limit.Some? && q.limit.value > 0
    requires forall x | x in table :: keep(x) <==> RowBefore(d, CursorOrder(q.orderBy, pk), cursor, x)
    ensures var order := CursorOrder(q.orderBy, pk);
            var rest := Sort(Less(d, order), Filter(keep, Filter(Matches(q.wheres), table)));
            RunPage(d, table, pk, q) == Ok(Assemble(q, order, q.limit.value, Take(q.limit.value + 1, rest)))
  {
    var order := CursorOrder(q.orderBy, pk);
    CursorClause(d, pk, q, cursor);
    FilterFilter(Matches(PageWheres(q, order).value), keep, Matches(q.wheres), table);
  }

  /** The rows left after the first i of the ordered result are what the next page is cut from. */
  lemma RestAfter(d: Dialect, table: seq<Row>, pk: seq<string>, q: Query, order: seq<OrderBy>, all: seq<Row>, i: nat)
    requires Pageable(table, pk, q.orderBy) && q.before.None? && q.limit.Some? && q.limit.value > 0
    requires order == CursorOrder(q.orderBy, pk) && all == Ordered(d, table, q.wheres, order)
    requires i <= |all| && q.after == CursorAt(order, all, i)
    ensures RunPage(d, table, pk, q) == Ok(Assemble(q, order, q.limit.value, Take(q.limit.value + 1, all[i..])))
  {
    CursorOrderCovers(q.orderBy, pk);
    if i == 0 {
      assert all[0..] == all;
    } else {
      OrderIsTotal(d, table, pk, q.orderBy);
      var cursor := all[i - 1];
      CursorRow(d, table, pk, q, order, all, i - 1);
      var keep := (x: Row) => RowBefore(d, order, cursor, x);
      ForwardPage(d, table, pk, q, cursor, keep);
      TotalOnPart(Less(d, order), Matches(q.wheres), table);
      SortAfter(Less(d, order), keep, Filter(Matches(q.wheres), table), i - 1);
    }
  }

  lemma CursorRow(d: Dialect, table: seq<Row>, pk: seq<string>, q: Query, order: seq<OrderBy>, all: seq<Row>, i: nat)
    requires Pageable(table, pk, q.orderBy) && all == Ordered(d, table, q.wheres, order) && i < |all|
    ensures PageableRow(all[i], pk, q.orderBy)
  {
    SortElements(Less(d, order), Filter(Matches(q.wheres), table));
    FilterElements(Matches(q.wheres), table);
    assert all[i] in all;
  }

  /** The page that continues the ordered result after its first i rows. */
  ghost predicate IsForward(order: seq<OrderBy>, all: seq<Row>, n: nat, i: nat, page: Page)
    requires i <= |all|
  {
    && page.items == Take(n, all[i..])
    && page.hasMore == (|all| - i > n)
    && page.next == (if |all| - i > n > 0 then Some(CursorFor(order, all[i + n - 1])) else None)
    && page.previous == (if 0 < i < |all| then Some(CursorFor(order, all[i])) else None)
    && page.hasPrev == (i > 0)
  }

  /** Where the page in front of the i-th row starts. */
  function BackStart(n: nat, i: nat): nat { if i > n then i - n else 0 }

  /** The page in front of the i-th row: the cursors stay those of its own last and first row. */
  ghost predicate IsBackward(order: seq<OrderBy>, all: seq<Row>, n: nat, i: nat, page: Page)
    requires i < |all|
  {
    && page.items == all[BackStart(n, i)..i]
    && page.hasMore
    && page.next == CursorAt(order, all, i)
    && page.hasPrev == (i > n)
    && page.previous == (if i > n > 0 then Some(CursorFor(order, all[i - n])) else None)
  }

  lemma AssembleForward(q: Query, order: seq<OrderBy>, n: nat, all: seq<Row>, i: nat)
    requires q.before.None? && n > 0 && i <= |all| && (q.after.Some? <==> i > 0)
    ensures IsForward(order, all, n, i, Assemble(q, order, n, Take(n + 1, all[i..])))
  {
    var page := Assemble(q, order, n, Take(n + 1, all[i..]));
    assert page.items == Take(n, all[i..]);
    if |all| - i > n {
      assert page.items[|page.items| - 1] == all[i + n - 1];
    }
  }

  /** The first page, and the page after the i-th row, are the next n rows of the ordered result. */
  lemma ForwardSlice(d: Dialect, table: seq<Row>, pk: seq<string>, q: Query, order: seq<OrderBy>, all: seq<Row>, n: nat, i: nat)
    requires Pageable(table, pk, q.orderBy) && q.before.None? && q.limit == Some(n as int) && n > 0
    requires order == CursorOrder(q.orderBy, pk) && all == Ordered(d, table, q.wheres, order)
    requires i <= |all| && q.after == CursorAt(order, all, i)
    ensures RunPage(d, table, pk, q).Ok? && IsForward(order, all, n, i, RunPage(d, table, pk, q).value)
  {
    RestAfter(d, table, pk, q, order, all, i);
    AssembleForward(q, order, n, all, i);
  }

  lemma AssembleBackward(q: Query, order: seq<OrderBy>, n: nat, all: seq<Row>, i: nat)
    requires q.before.Some? && n > 0 && i < |all|
    ensures IsBackward(order, all, n, i, Assemble(q, order, n, Take(n + 1, Reverse(all)[|all| - i..])))
  {
    hide CursorFor, Reverse;
    var rest := Reverse(all)[|all| - i..];
    TakeTake(n, rest);
    ReverseTail(all, n, i);
    ItemEnds(all, n, i);
  }

  lemma ItemEnds(all: seq<Row>, n: nat, i: nat)
    requires n > 0 && i < |all|
    ensures i > 0 ==> var items := all[BackStart(n, i)..i];
                      items[|items| - 1] == all[i - 1] && items[0] == all[BackStart(n, i)]
  {
  }

  lemma TakeTake<T>(n: nat, s: seq<T>)
    ensures Take(n, Take(n + 1, s)) == Take(n, s)
  {
  }

  lemma ReverseTail(all: seq<Row>, n: nat, i: nat)
    requires i < |all|
    ensures Reverse(Take(n, Reverse(all)[|all| - i..])) == all[BackStart(n, i)..i]
  {
    var rest := Reverse(all)[|all| - i..];
    forall k | 0 <= k < i ensures rest[k] == all[i - 1 - k] {
      assert rest[k] == Reverse(all)[|all| - i + k];
    }
  }

  /**
   * `Before` the i-th row returns the n rows that precede it, in natural order, with the cursors of its ends. A cursor
   * given to `After` does not turn a query that already has a `Before` around: it takes the place of that cursor.
   */
  lemma BackwardSlice(d: Dialect, table: seq<Row>, pk: seq<string>, q: Query, order: seq<OrderBy>, all: seq<Row>, n: nat, i: nat)
    requires Pageable(table, pk, q.orderBy) && q.before.Some? && q.limit == Some(n as int) && n > 0
    requires order == CursorOrder(q.orderBy, pk) && all == Ordered(d, table, q.wheres, order)
    requires i < |all| && (if q.after.Some? then q.after else q.before) == Some(CursorFor(order, all[i]))
    ensures RunPage(d, table, pk, q).Ok? && IsBackward(order, all, n, i, RunPage(d, table, pk, q).value)
  {
    hide *;
    BackwardPage(d, table, pk, q, order, all, n, i);
    AssembleBackward(q, order, n, all, i);
  }

  lemma BackwardPage(d: Dialect, table: seq<Row>, pk: seq<string>, q: Query, order: seq<OrderBy>, all: seq<Row>, n: nat, i: nat)
    requires Pageable(table, pk, q.orderBy) && q.before.Some? && q.limit == Some(n as int) && n > 0
    requires order == CursorOrder(q.orderBy, pk) && all == Ordered(d, table, q.wheres, order)
    requires i < |all| && (if q.after.Some? then q.after else q.before) == Some(CursorFor(order, all[i]))
    ensures pk != [] && RunPage(d, table, pk, q) == Ok(Assemble(q, order, n, Take(n + 1, Reverse(all)[|all| - i..])))
  {
    hide *;
    HasKey(table, pk, q.orderBy);
    Resumed(q);
    RestBefore(d, table, pk, q, order, all, i);
    BackwardIs(d, table, pk, q, order, n);
  }

  lemma Resumed(q: Query)
    ensures Resume(q) == if q.after.Some? then q.after else q.before
  {
  }

  lemma BackwardIs(d: Dialect, table: seq<Row>, pk: seq<string>, q: Query, order: seq<OrderBy>, n: nat)
    requires pk != [] && q.orderBy != [] && q.before.Some? && q.limit == Some(n as int) && n > 0
    requires order == CursorOrder(q.orderBy, pk) && order != [] && PageWheres(q, order).Ok?
    ensures RunPage(d, table, pk, q)
         == Ok(Assemble(q, order, n, Take(n + 1, Ordered(d, table, PageWheres(q, order).value, Invert(order)))))
  {
    hide Ordered, Assemble, PageWheres, CursorOrder, Invert, Take;
  }

  lemma RestBefore(d: Dialect, table: seq<Row>, pk: seq<string>, q: Query, order: seq<OrderBy>, all: seq<Row>, i: nat)
    requires Pageable(table, pk, q.orderBy) && q.before.Some?
    requires order == CursorOrder(q.orderBy, pk) && all == Ordered(d, table, q.wheres, order)
    requires i < |all| && Resume(q) == Some(CursorFor(order, all[i]))
    ensures order != [] && PageWheres(q, order).Ok?
    ensures Ordered(d, table, PageWheres(q, order).value, Invert(order)) == Reverse(all)[|all| - i..]
  {
    var base := Filter(Matches(q.wheres), table);
    var keep := (x: Row) => RowBefore(d, order, x, all[i]);
    CursorOrderCovers(q.orderBy, pk);
    CursorRow(d, table, pk, q, order, all, i);
    CursorClause(d, pk, q, all[i]);
    hide RowBefore, Clause, Sort, Filter, Matches, Pageable, CursorOrder;
    FilterFilter(Matches(PageWheres(q, order).value), keep, Matches(q.wheres), table);
    FilteredBefore(d, table, pk, q, order, base, keep, i);
  }

  lemma FilteredBefore(d: Dialect, table: seq<Row>, pk: seq<string>, q: Query, order: seq<OrderBy>, base: seq<Row>, keep: Row -> bool, i: nat)
    requires Pageable(table, pk, q.orderBy) && order == CursorOrder(q.orderBy, pk)
    requires base == Filter(Matches(q.wheres), table) && i < |base|
    requires forall x :: keep(x) <==> RowBefore(d, order, x, Sort(Less(d, order), base)[i])
    ensures Sort(Less(d, Invert(order)), Filter(keep, base)) == Reverse(Sort(Less(d, order), base))[|base| - i..]
  {
    var up, down := Less(d, order), Less(d, Invert(order));
    OrderIsTotal(d, table, pk, q.orderBy);
    TotalOnPart(up, Matches(q.wheres), table);
    forall x, y ensures down(x, y) <==> up(y, x) {
      MirrorRows(d, order, x, y);
    }
    hide RowBefore, Matches;
    SortBefore(up, down, keep, base, i);
  }

  lemma MirrorRows(d: Dialect, order: seq<OrderBy>, x: Row, y: Row)
    ensures RowBefore(d, Invert(order), x, y) <==> RowBefore(d, order, y, x)
  {
    assert KeyOf(Invert(order), x) == KeyOf(order, x) && KeyOf(Invert(order), y) == KeyOf(order, y);
    InvertMirrors(d, order, KeyOf(order, x), KeyOf(order, y));
  }

  /** `Before` the first item of a later page returns the page before it: i is where that page starts. */
  lemma BackReturnsPreviousPage(d: Dialect, table: seq<Row>, pk: seq<string>, q: Query, order: seq<OrderBy>, all: seq<Row>, n: nat, i: nat)
    returns (page: Page, next: Page, back: Page)
    requires Pageable(table, pk, q.orderBy) && q.after.None? && q.before.None? && q.limit == Some(n as int) && n > 0
    requires order == CursorOrder(q.orderBy, pk) && all == Ordered(d, table, q.wheres, order)
    requires i + n < |all|
    ensures RunPage(d, table, pk, q.(after := CursorAt(order, all, i))) == Ok(page)
    ensures RunPage(d, table, pk, q.(after := page.next)) == Ok(next)
    ensures next.previous.Some? && RunPage(d, table, pk, q.(before := next.previous)) == Ok(back)
    ensures |page.items| == n && back.items == page.items
  {
    hide RunPage, Ordered, Pageable;
    page, next := TwoPages(d, table, pk, q, order, all, n, i);
    back := PageBefore(d, table, pk, q, order, all, n, i + n);
  }

  lemma TwoPages(d: Dialect, table: seq<Row>, pk: seq<string>, q: Query, order: seq<OrderBy>, all: seq<Row>, n: nat, i: nat)
    returns (page: Page, next: Page)
    requires Pageable(table, pk, q.orderBy) && q.before.None? && q.limit == Some(n as int) && n > 0
    requires order == CursorOrder(q.orderBy, pk) && all == Ordered(d, table, q.wheres, order)
    requires i + n < |all|
    ensures RunPage(d, table, pk, q.(after := CursorAt(order, all, i))) == Ok(page)
    ensures RunPage(d, table, pk, q.(after := page.next)) == Ok(next)
    ensures page.items == all[i..i + n] && next.previous == Some(CursorFor(order, all[i + n]))
  {
    hide RunPage, Ordered, Pageable;
    page := PageAt(d, table, pk, q, order, all, n, i);
    next := PageAt(d, table, pk, q, order, all, n, i + n);
    assert page.items == all[i..i + n];
  }

  lemma PageAt(d: Dialect, table: seq<Row>, pk: seq<string>, q: Query, order: seq<OrderBy>, all: seq<Row>, n: nat, i: nat)
    returns (page: Page)
    requires Pageable(table, pk, q.orderBy) && q.before.None? && q.limit == Some(n as int) && n > 0
    requires order == CursorOrder(q.orderBy, pk) && all == Ordered(d, table, q.wheres, order) && i <= |all|
    ensures RunPage(d, table, pk, q.(after := CursorAt(order, all, i))) == Ok(page)
    ensures IsForward(order, all, n, i, page)
  {
    assert pk != [];
    hide Ordered, Pageable;
    var step := q.(after := CursorAt(order, all, i));
    ForwardSlice(d, table, pk, step, order, all, n, i);
    page := RunPage(d, table, pk, step).value;
  }

  lemma PageBefore(d: Dialect, table: seq<Row>, pk: seq<string>, q: Query, order: seq<OrderBy>, all: seq<Row>, n: nat, i: nat)
    returns (page: Page)
    requires Pageable(table, pk, q.orderBy) && q.after.None? && q.limit == Some(n as int) && n > 0
    requires order == CursorOrder(q.orderBy, pk) && all == Ordered(d, table, q.wheres, order) && i < |all|
    ensures RunPage(d, table, pk, q.(before := Some(CursorFor(order, all[i])))) == Ok(page)
    ensures IsBackward(order, all, n, i, page)
  {
    var step := q.(before := Some(CursorFor(order, all[i])));
    BackwardSlice(d, table, pk, step, order, all, n, i);
    page := RunPage(d, table, pk, step).value;
  }

  /** Following the next cursor of a Before page comes back to where it started: the rows from the i-th on. */
  lemma ForwardFromBack(d: Dialect, table: seq<Row>, pk: seq<string>, q: Query, order: seq<OrderBy>, all: seq<Row>, n: nat, i: nat)
    returns (back: Page, page: Page)
    requires Pageable(table, pk, q.orderBy) && q.after.None? && q.before.None? && q.limit == Some(n as int) && n > 0
    requires order == CursorOrder(q.orderBy, pk) && all == Ordered(d, table, q.wheres, order)
    requires 0 < i < |all|
    ensures RunPage(d, table, pk, q.(before := Some(CursorFor(order, all[i])))) == Ok(back)
    ensures back.hasMore && back.next.Some? && RunPage(d, table, pk, q.(after := back.next)) == Ok(page)
    ensures page.items == Take(n, all[i..]) && page.hasMore == (i + n < |all|)
    ensures page.previous == Some(CursorFor(order, all[i]))
  {
    hide RunPage, Ordered, Pageable;
    back := PageBefore(d, table, pk, q, order, all, n, i);
    page := PageAt(d, table, pk, q, order, all, n, i);
  }

  // ---- The walk over a fixed table ----------------------------------------------------------

  /** Follows NextCursor until HasMore is false: it ends, and the pages concatenate to the whole ordered result. */
  method Walk(d: Dialect, table: seq<Row>, pk: seq<string>, q: Query) returns (rows: seq<Row>)
    requires Pageable(table, pk, q.orderBy) && q.after.None? && q.before.None? && q.limit.Some? && q.limit.value > 0
    ensures rows == Ordered(d, table, q.wheres, CursorOrder(q.orderBy, pk))
  {
    hide *;
    HasKey(table, pk, q.orderBy);
    ghost var order := CursorOrder(q.orderBy, pk);
    ghost var all := Ordered(d, table, q.wheres, order);
    CursorAtStart(order, all);
    rows := [];
    var after: Option<Cursor> := None;
    var more := true;
    while more
      invariant |rows| <= |all| && rows == all[..|rows|]
      invariant more ==> after == CursorAt(order, all, |rows|)
      invariant !more ==> |rows| == |all|
      decreases more, |all| - |rows|
    {
      ghost var expected := ExpectNext(d, table, pk, q, order, all, |rows|);
      ExtendedRows(order, all, |rows|, expected);
      var r := FetchPage(d, table, pk, q.(after := after));
      rows := rows + r.value.items;
      more, after := r.value.hasMore, r.value.next;
    }
  }

  lemma CursorAtStart(order: seq<OrderBy>, all: seq<Row>)
    ensures CursorAt(order, all, 0) == None
  {
  }

  lemma ExtendedRows(order: seq<OrderBy>, all: seq<Row>, i: nat, page: Page)
    requires i <= |all| && Extends(order, all, i, page)
    ensures i + |page.items| <= |all| && all[..i] + page.items == all[..i + |page.items|]
    ensures page.hasMore ==> page.items != [] && page.next == CursorAt(order, all, i + |page.items|)
    ensures !page.hasMore ==> i + |page.items| == |all|
  {
  }

  /** The page that extends the first i rows of the ordered result. */
  ghost predicate Extends(order: seq<OrderBy>, all: seq<Row>, i: nat, page: Page)
    requires i <= |all|
  {
    && i + |page.items| <= |all| && all[..i] + page.items == all[..i + |page.items|]
    && (page.hasMore ==> page.items != [] && page.next == CursorAt(order, all, i + |page.items|))
    && (!page.hasMore ==> i + |page.items| == |all|)
  }

  /** What one iteration of the walk fetches. */
  lemma ExpectNext(d: Dialect, table: seq<Row>, pk: seq<string>, q: Query, order: seq<OrderBy>, all: seq<Row>, i: nat)
    returns (page: Page)
    requires Pageable(table, pk, q.orderBy) && q.before.None? && q.limit.Some? && q.limit.value > 0
    requires order == CursorOrder(q.orderBy, pk) && all == Ordered(d, table, q.wheres, order) && i <= |all|
    ensures RunPage(d, table, pk, q.(after := CursorAt(order, all, i))) == Ok(page) && Extends(order, all, i, page)
  {
    assert pk != [];
    hide RunPage, Ordered, Pageable, CursorOrder;
    page := PageAt(d, table, pk, q, order, all, q.limit.value, i);
    ForwardNext(order, all, q.limit.value, i, page);
  }

  lemma ForwardNext(order: seq<OrderBy>, all: seq<Row>, n: nat, i: nat, page: Page)
    requires i <= |all| && n > 0 && IsForward(order, all, n, i, page)
    ensures Extends(order, all, i, page)
  {
  }

  /** Follows PreviousCursor from the i-th row until HasPrev is false: the pages hold everything in front of it. */
  method WalkBack(d: Dialect, table: seq<Row>, pk: seq<string>, q: Query, from: Cursor, ghost i: nat) returns (rows: seq<Row>)
    requires Pageable(table, pk, q.orderBy) && q.after.None? && q.before.None? && q.limit.Some? && q.limit.value > 0
    requires var all := Ordered(d, table, q.wheres, CursorOrder(q.orderBy, pk));
             i < |all| && from == CursorFor(CursorOrder(q.orderBy, pk), all[i])
    ensures rows == Ordered(d, table, q.wheres, CursorOrder(q.orderBy, pk))[..i]
  {
    hide *;
    HasKey(table, pk, q.orderBy);
    ghost var order := CursorOrder(q.orderBy, pk);
    ghost var all := Ordered(d, table, q.wheres, order);
    rows := [];
    var before := Some(from);
    ghost var left := i;
    while before.Some?
      invariant 0 <= left <= i && rows == all[left..i]
      invariant before == Some(CursorFor(order, all[left])) || (before.None? && left == 0)
      decreases before.Some?, left
    {
      ghost var expected := ExpectPrevious(d, table, pk, q, order, all, left);
      PrependedRows(order, all, left, i, expected);
      var r := FetchPage(d, table, pk, q.(before := before));
      rows := r.value.items + rows;
      left := left - |r.value.items|;
      before := if r.value.hasPrev then r.value.previous else None;
    }
  }

  lemma HasKey(table: seq<Row>, pk: seq<string>, orderBy: seq<OrderBy>)
    requires Pageable(table, pk, orderBy)
    ensures pk != [] && orderBy != []
  {
  }

  /** The page that puts the rows in front of the first `left` ones taken back so far. */
  ghost predicate Prepends(order: seq<OrderBy>, all: seq<Row>, left: nat, page: Page)
    requires left < |all|
  {
    && |page.items| <= left && page.items == all[left - |page.items|..left]
    && (page.hasPrev ==> 0 < |page.items| < left && page.previous == Some(CursorFor(order, all[left - |page.items|])))
    && (!page.hasPrev ==> |page.items| == left && page.previous.None?)
  }

  lemma PrependedRows(order: seq<OrderBy>, all: seq<Row>, left: nat, i: nat, page: Page)
    requires left <= i < |all| && Prepends(order, all, left, page)
    ensures |page.items| <= left && page.items + all[left..i] == all[left - |page.items|..i]
    ensures page.hasPrev ==> |page.items| > 0 && page.previous == Some(CursorFor(order, all[left - |page.items|]))
    ensures !page.hasPrev ==> |page.items| == left
  {
  }

  lemma ExpectPrevious(d: Dialect, table: seq<Row>, pk: seq<string>, q: Query, order: seq<OrderBy>, all: seq<Row>, left: nat)
    returns (page: Page)
    requires Pageable(table, pk, q.orderBy) && q.after.None? && q.limit.Some? && q.limit.value > 0
    requires order == CursorOrder(q.orderBy, pk) && all == Ordered(d, table, q.wheres, order) && left < |all|
    ensures pk != [] && RunPage(d, table, pk, q.(before := Some(CursorFor(order, all[left])))) == Ok(page)
    ensures Prepends(order, all, left, page)
  {
    hide *;
    HasKey(table, pk, q.orderBy);
    page := PageBefore(d, table, pk, q, order, all, q.limit.value, left);
    BackwardPrepends(order, all, q.limit.value, left, page);
  }

  lemma BackwardPrepends(order: seq<OrderBy>, all: seq<Row>, n: nat, left: nat, page: Page)
    requires left < |all| && n > 0 && IsBackward(order, all, n, left, page)
    ensures Prepends(order, all, left, page)
  {
    hide CursorFor;
  }

  // ---- The walk while rows come and go ------------------------------------------------------

  /** The query of page i resumes from the cursor of page i - 1. */
  function StepQuery(q: Query, pages: seq<Page>, i: nat): Query
    requires i < |pages|
  {
    q.(after := if i == 0 then None else pages[i - 1].next)
  }

  /** Page i is fetched from tables[i] with the cursor of page i - 1; every page but the last said there was more. */
  ghost predicate IsWalk(d: Dialect, pk: seq<string>, q: Query, tables: seq<seq<Row>>, pages: seq<Page>) {
    && pk != [] && |tables| == |pages| > 0
    && q.after.None? && q.before.None? && q.limit.Some? && q.limit.value > 0
    && (forall i | 0 <= i < |tables| :: Pageable(tables[i], pk, q.orderBy))
    && (forall i | 0 <= i < |pages| :: RunPage(d, tables[i], pk, StepQuery(q, pages, i)) == Ok(pages[i]))
    && (forall i | 0 <= i < |pages| - 1 :: pages[i].hasMore)
  }

  /** The rows of the first n pages. */
  function Items(pages: seq<Page>, n: nat): seq<Row>
    requires n <= |pages|
  {
    if n == 0 then [] else Items(pages, n - 1) + pages[n - 1].items
  }

  function LastRow(page: Page): Option<Row> {
    if page.items == [] then None else Some(page.items[|page.items| - 1])
  }

  function RowBeforePage(pages: seq<Page>, i: nat): Option<Row>
    requires i < |pages|
  {
    if i == 0 then None else LastRow(pages[i - 1])
  }

  predicate Past(d: Dialect, order: seq<OrderBy>, cursor: Option<Row>, x: Row) {
    cursor.Some? ==> RowBefore(d, order, cursor.value, x)
  }

  /** One step of a walk: the page holds the first candidates past the cursor, in order, and says whether more are left. */
  ghost predicate IsStep(d: Dialect, order: seq<OrderBy>, q: Query, table: seq<Row>, cursor: Option<Row>, page: Page) {
    && (page.hasMore ==> page.items != [] && page.next == Some(CursorFor(order, page.items[|page.items| - 1])))
    && Ascending(Less(d, order), page.items)
    && (forall x | x in page.items :: x in table && Matches(q.wheres)(x) && Past(d, order, cursor, x))
    && (forall x | x in table && Matches(q.wheres)(x) && Past(d, order, cursor, x) ::
          x in page.items || (page.hasMore && Past(d, order, LastRow(page), x)))
  }

  ghost predicate AreSteps(d: Dialect, order: seq<OrderBy>, q: Query, tables: seq<seq<Row>>, pages: seq<Page>) {
    && |tables| == |pages| > 0
    && (forall i | 0 <= i < |pages| :: IsStep(d, order, q, tables[i], RowBeforePage(pages, i), pages[i]))
    && (forall i | 0 <= i < |pages| - 1 :: pages[i].hasMore)
  }

  lemma StepKeeps(d: Dialect, order: seq<OrderBy>, q: Query, table: seq<Row>, cursor: Option<Row>, page: Page, x: Row)
    requires IsStep(d, order, q, table, cursor, page) && x in table && Matches(q.wheres)(x) && Past(d, order, cursor, x)
    ensures x in page.items || (page.hasMore && Past(d, order, LastRow(page), x))
  {
  }

  lemma StepIsPast(d: Dialect, order: seq<OrderBy>, q: Query, table: seq<Row>, cursor: Option<Row>, page: Page)
    requires IsStep(d, order, q, table, cursor, page)
    ensures Ascending(Less(d, order), page.items)
    ensures forall x | x in page.items :: x in table && Matches(q.wheres)(x) && Past(d, order, cursor, x)
    ensures page.hasMore ==> page.items != []
  {
  }

  lemma AssembleStep(d: Dialect, order: seq<OrderBy>, q: Query, table: seq<Row>, cursor: Option<Row>, candidates: seq<Row>, page: Page)
    requires q.limit.Some? && q.limit.value > 0 && q.before.None?
    requires TotalOn(Less(d, order), candidates) && Distinct(candidates)
    requires page == Assemble(q, order, q.limit.value, Take(q.limit.value + 1, Sort(Less(d, order), candidates)))
    requires forall x :: x in candidates <==> x in table && Matches(q.wheres)(x) && Past(d, order, cursor, x)
    ensures IsStep(d, order, q, table, cursor, page)
  {
    hide RowBefore, Matches;
    var n: nat := q.limit.value;
    SortAscends(Less(d, order), candidates);
    SortElements(Less(d, order), candidates);
    var all := Sort(Less(d, order), candidates);
    assert page.items == Take(n, all);
    hide Sort, Assemble;
    TakeCovers(Less(d, order), n, all);
  }

  /** The first n of an ascending sequence, and the rest strictly after them. */
  lemma TakeCovers(lt: (Row, Row) -> bool, n: nat, all: seq<Row>)
    requires Ascending(lt, all) && n > 0
    ensures Ascending(lt, Take(n, all))
    ensures forall x | x in Take(n, all) :: x in all
    ensures forall x | x in all :: x in Take(n, all) || (n < |all| && lt(all[n - 1], x))
  {
    forall x | x in all ensures x in Take(n, all) || (n < |all| && lt(all[n - 1], x)) {
      var k :| 0 <= k < |all| && all[k] == x;
      assert k < n ==> Take(n, all)[k] == x;
    }
  }

  lemma FirstStep(d: Dialect, table: seq<Row>, pk: seq<string>, q: Query, page: Page)
    requires Pageable(table, pk, q.orderBy) && q.after.None? && q.before.None? && q.limit.Some? && q.limit.value > 0
    requires RunPage(d, table, pk, q) == Ok(page)
    ensures IsStep(d, CursorOrder(q.orderBy, pk), q, table, None, page)
  {
    var order := CursorOrder(q.orderBy, pk);
    CursorOrderCovers(q.orderBy, pk);
    OrderIsTotal(d, table, pk, q.orderBy);
    TotalOnPart(Less(d, order), Matches(q.wheres), table);
    FilterElements(Matches(q.wheres), table);
    AssembleStep(d, order, q, table, None, Filter(Matches(q.wheres), table), page);
  }

  lemma LaterStep(d: Dialect, table: seq<Row>, pk: seq<string>, q: Query, cursor: Row, page: Page)
    requires Pageable(table, pk, q.orderBy) && PageableRow(cursor, pk, q.orderBy)
    requires q.before.None? && q.limit.Some? && q.limit.value > 0
    requires q.after == Some(CursorFor(CursorOrder(q.orderBy, pk), cursor))
    requires RunPage(d, table, pk, q) == Ok(page)
    ensures IsStep(d, CursorOrder(q.orderBy, pk), q, table, Some(cursor), page)
  {
    var order := CursorOrder(q.orderBy, pk);
    var base := Filter(Matches(q.wheres), table);
    var keep := (x: Row) => RowBefore(d, order, cursor, x);
    OrderIsTotal(d, table, pk, q.orderBy);
    TotalOnPart(Less(d, order), Matches(q.wheres), table);
    TotalOnPart(Less(d, order), keep, base);
    FilterElements(Matches(q.wheres), table);
    FilterElements(keep, base);
    ForwardPage(d, table, pk, q, cursor, keep);
    AssembleStep(d, order, q, table, Some(cursor), Filter(keep, base), page);
  }

  lemma FetchedAt(d: Dialect, pk: seq<string>, q: Query, tables: seq<seq<Row>>, pages: seq<Page>, i: nat)
    requires IsWalk(d, pk, q, tables, pages) && i < |pages|
    ensures pk != [] && RunPage(d, tables[i], pk, StepQuery(q, pages, i)) == Ok(pages[i])
  {
  }

  lemma StepRowsPageable(d: Dialect, pk: seq<string>, q: Query, order: seq<OrderBy>, table: seq<Row>, cursor: Option<Row>, page: Page)
    requires Pageable(table, pk, q.orderBy) && IsStep(d, order, q, table, cursor, page) && page.items != []
    ensures LastRow(page).Some? && PageableRow(LastRow(page).value, pk, q.orderBy)
  {
    assert LastRow(page).value in page.items;
  }

  lemma {:induction false} WalkSteps(d: Dialect, pk: seq<string>, q: Query, tables: seq<seq<Row>>, pages: seq<Page>, i: nat)
    requires IsWalk(d, pk, q, tables, pages) && i < |pages|
    ensures IsStep(d, CursorOrder(q.orderBy, pk), q, tables[i], RowBeforePage(pages, i), pages[i])
  {
    hide RunPage, IsStep, Pageable;
    if i == 0 {
      FirstWalkStep(d, pk, q, tables, pages);
    } else {
      WalkSteps(d, pk, q, tables, pages, i - 1);
      LaterWalkStep(d, pk, q, tables, pages, i);
    }
  }

  lemma FirstWalkStep(d: Dialect, pk: seq<string>, q: Query, tables: seq<seq<Row>>, pages: seq<Page>)
    requires IsWalk(d, pk, q, tables, pages)
    ensures IsStep(d, CursorOrder(q.orderBy, pk), q, tables[0], None, pages[0])
  {
    FetchedAt(d, pk, q, tables, pages, 0);
    assert q.(after := None) == q;
    FirstStep(d, tables[0], pk, q, pages[0]);
  }

  lemma LaterWalkStep(d: Dialect, pk: seq<string>, q: Query, tables: seq<seq<Row>>, pages: seq<Page>, i: nat)
    requires IsWalk(d, pk, q, tables, pages) && 0 < i < |pages|
    requires IsStep(d, CursorOrder(q.orderBy, pk), q, tables[i - 1], RowBeforePage(pages, i - 1), pages[i - 1])
    ensures IsStep(d, CursorOrder(q.orderBy, pk), q, tables[i], LastRow(pages[i - 1]), pages[i])
  {
    FetchedAt(d, pk, q, tables, pages, i);
    NextStep(d, pk, q, tables[i - 1], RowBeforePage(pages, i - 1), pages[i - 1], tables[i], pages[i]);
  }

  lemma NextStep(d: Dialect, pk: seq<string>, q: Query, before: seq<Row>, cursor: Option<Row>, previous: Page, table: seq<Row>, page: Page)
    requires Pageable(before, pk, q.orderBy) && Pageable(table, pk, q.orderBy)
    requires q.before.None? && q.limit.Some? && q.limit.value > 0
    requires IsStep(d, CursorOrder(q.orderBy, pk), q, before, cursor, previous) && previous.hasMore
    requires RunPage(d, table, pk, q.(after := previous.next)) == Ok(page)
    ensures IsStep(d, CursorOrder(q.orderBy, pk), q, table, LastRow(previous), page)
  {
    var order := CursorOrder(q.orderBy, pk);
    StepRowsPageable(d, pk, q, order, before, cursor, previous);
    var step := q.(after := previous.next);
    LaterStep(d, table, pk, step, LastRow(previous).value, page);
    SameFilter(d, order, step, q, table, LastRow(previous), page);
  }

  lemma SameFilter(d: Dialect, order: seq<OrderBy>, p: Query, q: Query, table: seq<Row>, cursor: Option<Row>, page: Page)
    requires p.wheres == q.wheres && IsStep(d, order, p, table, cursor, page)
    ensures IsStep(d, order, q, table, cursor, page)
  {
  }

  lemma AscendingJoin(d: Dialect, order: seq<OrderBy>, head: seq<Row>, tail: seq<Row>)
    requires Ascending(Less(d, order), head) && Ascending(Less(d, order), tail) && head != []
    requires forall x | x in tail :: RowBefore(d, order, head[|head| - 1], x)
    ensures Ascending(Less(d, order), head + tail)
  {
    var both, e := head + tail, |head| - 1;
    forall i, j | 0 <= i < j < |both| ensures RowBefore(d, order, both[i], both[j]) {
      if j < |head| {
        assert Less(d, order)(head[i], head[j]);
      } else if i > e {
        assert Less(d, order)(tail[i - |head|], tail[j - |head|]);
      } else {
        var x := tail[j - |head|];
        assert x in tail;
        if i < e {
          assert Less(d, order)(head[i], head[e]);
          KeyBeforeTransitive(d, order, KeyOf(order, head[i]), KeyOf(order, head[e]), KeyOf(order, x));
        }
      }
    }
  }

  lemma ItemsEnd(pages: seq<Page>, n: nat)
    requires 0 < n <= |pages| && pages[n - 1].items != []
    ensures |Items(pages, n)| > 0 && LastRow(pages[n - 1]) == Some(Items(pages, n)[|Items(pages, n)| - 1])
  {
    var tail := pages[n - 1].items;
    assert Items(pages, n)[|Items(pages, n)| - 1] == tail[|tail| - 1];
  }

  /** Following the cursors never goes back. */
  lemma {:induction false} StepsAscend(d: Dialect, order: seq<OrderBy>, q: Query, tables: seq<seq<Row>>, pages: seq<Page>, n: nat)
    requires AreSteps(d, order, q, tables, pages) && 0 < n <= |pages|
    ensures Ascending(Less(d, order), Items(pages, n))
  {
    hide IsStep, RowBefore, Less, Matches;
    StepIsPast(d, order, q, tables[n - 1], RowBeforePage(pages, n - 1), pages[n - 1]);
    if n == 1 {
      assert Items(pages, 1) == pages[0].items;
    } else {
      StepsAscend(d, order, q, tables, pages, n - 1);
      StepIsPast(d, order, q, tables[n - 2], RowBeforePage(pages, n - 2), pages[n - 2]);
      ItemsEnd(pages, n - 1);
      AscendingJoin(d, order, Items(pages, n - 1), pages[n - 1].items);
    }
  }

  /** A row that stays in place through the walk is seen, or is still ahead of the last cursor. */
  lemma {:induction false} StableRowAhead(d: Dialect, order: seq<OrderBy>, q: Query, tables: seq<seq<Row>>, pages: seq<Page>, n: nat, x: Row)
    requires AreSteps(d, order, q, tables, pages) && Matches(q.wheres)(x) && 0 < n <= |pages|
    requires forall i | 0 <= i < |tables| :: x in tables[i]
    ensures x in Items(pages, n) || (pages[n - 1].hasMore && Past(d, order, LastRow(pages[n - 1]), x))
  {
    hide IsStep, RowBefore, Less, Matches;
    if n > 1 {
      StableRowAhead(d, order, q, tables, pages, n - 1, x);
    }
    if x !in Items(pages, n - 1) {
      StepKeeps(d, order, q, tables[n - 1], RowBeforePage(pages, n - 1), pages[n - 1], x);
    }
  }

  lemma {:induction false} ItemOfSomePage(pages: seq<Page>, n: nat, x: Row)
    requires n <= |pages| && x in Items(pages, n)
    ensures exists i | 0 <= i < n :: x in pages[i].items
  {
    if x !in pages[n - 1].items {
      ItemOfSomePage(pages, n - 1, x);
    }
  }

  /**
   * Walk stability: with rows inserted, deleted and changed at will between the pages, the finished walk is strictly
   * ascending (so no row repeats), holds only rows its pages found, and returns every row that stayed in place.
   */
  lemma WalkIsStable(d: Dialect, pk: seq<string>, q: Query, tables: seq<seq<Row>>, pages: seq<Page>)
    requires IsWalk(d, pk, q, tables, pages) && !pages[|pages| - 1].hasMore
    ensures var walked := Items(pages, |pages|);
            && Ascending(Less(d, CursorOrder(q.orderBy, pk)), walked) && Distinct(walked)
            && (forall x | Matches(q.wheres)(x) && (forall i | 0 <= i < |tables| :: x in tables[i]) :: x in walked)
            && (forall x | x in walked :: Matches(q.wheres)(x) && exists i | 0 <= i < |tables| :: x in tables[i])
  {
    var order := CursorOrder(q.orderBy, pk);
    WalkIsSteps(d, pk, q, tables, pages);
    hide AreSteps, IsWalk, Matches, Less;
    StepsAscend(d, order, q, tables, pages, |pages|);
    AscendingIsDistinct(d, order, Items(pages, |pages|));
    NothingSkipped(d, order, q, tables, pages);
    forall x | x in Items(pages, |pages|) ensures Matches(q.wheres)(x) && exists i | 0 <= i < |tables| :: x in tables[i] {
      ItemWasFound(d, order, q, tables, pages, x);
    }
  }

  lemma WalkIsSteps(d: Dialect, pk: seq<string>, q: Query, tables: seq<seq<Row>>, pages: seq<Page>)
    requires IsWalk(d, pk, q, tables, pages)
    ensures AreSteps(d, CursorOrder(q.orderBy, pk), q, tables, pages)
  {
    hide RunPage, IsStep, Pageable;
    forall i | 0 <= i < |pages|
      ensures IsStep(d, CursorOrder(q.orderBy, pk), q, tables[i], RowBeforePage(pages, i), pages[i])
    {
      WalkSteps(d, pk, q, tables, pages, i);
    }
  }

  lemma NothingSkipped(d: Dialect, order: seq<OrderBy>, q: Query, tables: seq<seq<Row>>, pages: seq<Page>)
    requires AreSteps(d, order, q, tables, pages) && !pages[|pages| - 1].hasMore
    ensures forall x | Matches(q.wheres)(x) && (forall i | 0 <= i < |tables| :: x in tables[i]) :: x in Items(pages, |pages|)
  {
    hide IsStep, Matches, Past;
    forall x | Matches(q.wheres)(x) && (forall i | 0 <= i < |tables| :: x in tables[i]) ensures x in Items(pages, |pages|) {
      StableRowAhead(d, order, q, tables, pages, |pages|, x);
    }
  }

  lemma ItemWasFound(d: Dialect, order: seq<OrderBy>, q: Query, tables: seq<seq<Row>>, pages: seq<Page>, x: Row)
    requires AreSteps(d, order, q, tables, pages) && x in Items(pages, |pages|)
    ensures Matches(q.wheres)(x) && exists i | 0 <= i < |tables| :: x in tables[i]
  {
    hide IsStep, Matches, RowBefore;
    ItemOfSomePage(pages, |pages|, x);
    var i :| 0 <= i < |pages| && x in pages[i].items;
    StepIsPast(d, order, q, tables[i], RowBeforePage(pages, i), pages[i]);
    assert x in tables[i];
  }

  lemma AscendingIsDistinct(d: Dialect, order: seq<OrderBy>, rows: seq<Row>)
    requires Ascending(Less(d, order), rows)
    ensures Distinct(rows)
  {
    forall i, j | 0 <= i < j < |rows| ensures rows[i] != rows[j] {
      assert Less(d, order)(rows[i], rows[j]);
      KeyBeforeIrreflexive(d, order, KeyOf(order, rows[i]));
    }
  }
}
