/** The keyset predicate. */
module Keyset {
  // Keyset pagination: the ordering of a cursor query and the predicate that resumes it.

  import opened Sql
  import OrderedSeqs

  datatype Result<T> = Ok(value: T) | Err(error: Error)
  datatype Error = CursorNeedsOrderBy | PaginationNeedsLimit | InvalidPageSize | InvalidCursor | CursorColumnNullable

  // ---- The terms of one column --------------------------------------------------------------

  predicate Unpinned(o: OrderBy, v: Value) { v.Null? && o.nulls.NullsDefault? }

  /** The tie-break term of a prefix column: "this column equals the cursor". */
  function EqTerm(o: OrderBy, v: Value): Where
    requires !Unpinned(o, v)
  {
    if v.Null? then Cmp(o.column, OpIsNull, Null) else Cmp(o.column, OpEq, v)
  }

  /** No row is strictly after a NULL that sorts last. */
  predicate NothingAfter(o: OrderBy, v: Value) { v.Null? && o.nulls.NullsLast? }

  /** The advancing term: "this column is strictly past the cursor". */
  function StrictTerm(o: OrderBy, v: Value): Where
    requires !Unpinned(o, v) && !NothingAfter(o, v)
  {
    var op := if o.direction.Desc? then OpLT else OpGT;
    if v.Null? then Cmp(o.column, OpIsNotNull, Null)
    else if o.nulls.NullsLast? then Or([Cmp(o.column, op, v), Cmp(o.column, OpIsNull, Null)])
    else Cmp(o.column, op, v)
  }

  lemma EqTermIsTrue(o: OrderBy, v: Value, row: Row)
    requires !Unpinned(o, v)
    ensures Eval(EqTerm(o, v), row).True? <==> Get(row, o.column) == v
  {
  }

  /** The row's NULL sorts after the cursor, but the comparison `column op v` cannot see it. */
  predicate HiddenNull(d: Dialect, o: OrderBy, v: Value, x: Value) {
    !v.Null? && x.Null? && o.nulls.NullsDefault? && NullsAreLast(d, o)
  }

  lemma StrictTermIsTrue(d: Dialect, o: OrderBy, v: Value, row: Row)
    requires !Unpinned(o, v) && !NothingAfter(o, v)
    ensures Eval(StrictTerm(o, v), row).True? <==>
            ColumnBefore(d, o, v, Get(row, o.column)) && !HiddenNull(d, o, v, Get(row, o.column))
  {
    var t := StrictTerm(o, v);
    if t.Or? {
      OrIsTrue(t.children, row);
      assert Eval(t.children[0], row).True? <==> Compare(t.children[0].op, Get(row, o.column), v).True?;
      assert Eval(t.children[1], row).True? <==> Get(row, o.column).Null?;
    }
  }

  // ---- The clause ---------------------------------------------------------------------------

  /** The OR branch that advances on column k: equal before it, strictly past on it. */
  function Branch(order: seq<OrderBy>, vals: seq<Value>, k: nat): Where
    requires |order| == |vals| && k < |order| && !NothingAfter(order[k], vals[k])
    requires forall i | 0 <= i <= k :: !Unpinned(order[i], vals[i])
  {
    var terms := seq(k, i requires 0 <= i < k => EqTerm(order[i], vals[i])) + [StrictTerm(order[k], vals[k])];
    if |terms| == 1 then terms[0] else And(terms)
  }

  function Branches(order: seq<OrderBy>, vals: seq<Value>, n: nat): (ws: seq<Where>)
    requires |order| == |vals| && n <= |order|
    requires forall i | 0 <= i < n :: !Unpinned(order[i], vals[i])
  {
    if n == 0 then []
    else
      var ws := Branches(order, vals, n - 1);
      if NothingAfter(order[n - 1], vals[n - 1]) then ws else ws + [Branch(order, vals, n - 1)]
  }

  function Combine(order: seq<OrderBy>, ws: seq<Where>): Where
    requires order != []
  {
    if ws == [] then Cmp(order[0].column, OpIsNull, Null)
    else if |ws| == 1 then ws[0]
    else Or(ws)
  }

  predicate Pinned(order: seq<OrderBy>, vals: seq<Value>)
    requires |order| == |vals|
  {
    forall i | 0 <= i < |order| :: !Unpinned(order[i], vals[i])
  }

  function Clause(order: seq<OrderBy>, vals: seq<Value>): Result<Where>
    requires |order| == |vals| > 0
  {
    if Pinned(order, vals) then Ok(Combine(order, Branches(order, vals, |order|)))
    else Err(CursorColumnNullable)
  }

  /** Builds the predicate with the nested loops of the query builder. */
  method BuildClause(order: seq<OrderBy>, vals: seq<Value>) returns (r: Result<Where>)
    requires |order| == |vals| > 0
    ensures r == Clause(order, vals)
  {
    var orTerms: seq<Where> := [];
    for k := 0 to |order|
      invariant forall i | 0 <= i < k :: !Unpinned(order[i], vals[i])
      invariant orTerms == Branches(order, vals, k)
    {
      var andTerms: seq<Where> := [];
      for j := 0 to k
        invariant |andTerms| == j
        invariant forall i | 0 <= i < j :: andTerms[i] == EqTerm(order[i], vals[i])
      {
        andTerms := andTerms + [EqTerm(order[j], vals[j])];
      }
      if Unpinned(order[k], vals[k]) {
        return Err(CursorColumnNullable);
      }
      if !NothingAfter(order[k], vals[k]) {
        andTerms := andTerms + [StrictTerm(order[k], vals[k])];
        assert andTerms == seq(k, i requires 0 <= i < k => EqTerm(order[i], vals[i])) + [StrictTerm(order[k], vals[k])];
        orTerms := orTerms + [if |andTerms| == 1 then andTerms[0] else And(andTerms)];
      }
    }
    r := Ok(Combine(order, orTerms));
  }

  // ---- The clause is exact ------------------------------------------------------------------

  lemma BranchIsTrue(d: Dialect, order: seq<OrderBy>, vals: seq<Value>, k: nat, row: Row)
    requires |order| == |vals| && k < |order| && !NothingAfter(order[k], vals[k]) && Pinned(order, vals)
    ensures Eval(Branch(order, vals, k), row).True? <==>
            FirstBefore(d, order, vals, KeyOf(order, row), k) && !HiddenNull(d, order[k], vals[k], KeyOf(order, row)[k])
  {
    var terms := seq(k, i requires 0 <= i < k => EqTerm(order[i], vals[i])) + [StrictTerm(order[k], vals[k])];
    var key := KeyOf(order, row);
    AndIsTrue(terms, row);
    StrictTermIsTrue(d, order[k], vals[k], row);
    forall i | 0 <= i < k ensures Eval(terms[i], row).True? <==> key[i] == vals[i] {
      EqTermIsTrue(order[i], vals[i], row);
    }
    assert terms[k] == StrictTerm(order[k], vals[k]);
    if vals[..k] == key[..k] {
      PrefixAgrees(vals, key, k);
    }
    assert (forall i | 0 <= i < k :: key[i] == vals[i]) ==> vals[..k] == key[..k];
    if |terms| > 1 {
      assert Branch(order, vals, k) == And(terms);
    }
    assert (forall i | 0 <= i < |terms| :: Eval(terms[i], row).True?) <==>
           (forall i | 0 <= i < k :: Eval(terms[i], row).True?) && Eval(terms[k], row).True?;
  }

  lemma {:induction false} BranchesAre(order: seq<OrderBy>, vals: seq<Value>, n: nat)
    requires |order| == |vals| && n <= |order| && Pinned(order, vals)
    ensures forall w :: w in Branches(order, vals, n) <==>
              exists k | 0 <= k < n :: !NothingAfter(order[k], vals[k]) && w == Branch(order, vals, k)
  {
    if n > 0 {
      BranchesAre(order, vals, n - 1);
    }
  }

  /** Every ordering column sits on a NULL that sorts last: the clause has no branch left. */
  predicate AtVeryEnd(order: seq<OrderBy>, vals: seq<Value>)
    requires |order| == |vals|
  {
    forall k | 0 <= k < |order| :: NothingAfter(order[k], vals[k])
  }

  /** The row differs from the cursor first on a column whose NULL the clause cannot see. */
  predicate Hidden(d: Dialect, order: seq<OrderBy>, vals: seq<Value>, row: Row)
    requires |order| == |vals|
  {
    var key := KeyOf(order, row);
    var k := FirstDifference(vals, key);
    k < |order| && HiddenNull(d, order[k], vals[k], key[k])
  }

  /**
   * The exactness theorem, for every ordering, dialect, cursor and row: the clause is TRUE for the rows strictly
   * after the cursor, except those whose first difference is a NULL on an unpinned column that the database sorts
   * last, and that family is excluded on every row.
   */
  lemma ClauseExact(d: Dialect, order: seq<OrderBy>, vals: seq<Value>, row: Row)
    requires |order| == |vals| > 0 && Pinned(order, vals) && !AtVeryEnd(order, vals)
    ensures Eval(Clause(order, vals).value, row).True? <==>
            KeyBefore(d, order, vals, KeyOf(order, row)) && !Hidden(d, order, vals, row)
  {
    var ws := Branches(order, vals, |order|);
    var key := KeyOf(order, row);
    BranchesAre(order, vals, |order|);
    var e :| 0 <= e < |order| && !NothingAfter(order[e], vals[e]);
    assert Branch(order, vals, e) in ws;
    CombineIsTrue(order, ws, row);
    KeyBeforeAt(d, order, vals, key);
    if w :| w in ws && Eval(w, row).True? {
      var j :| 0 <= j < |order| && !NothingAfter(order[j], vals[j]) && w == Branch(order, vals, j);
      TrueBranchIsFirst(d, order, vals, j, row);
    }
    if KeyBefore(d, order, vals, key) && !Hidden(d, order, vals, row) {
      var k := FirstDifference(vals, key);
      assert FirstBefore(d, order, vals, key, k);
      BranchIsTrue(d, order, vals, k, row);
      assert Branch(order, vals, k) in ws;
    }
  }

  lemma CombineIsTrue(order: seq<OrderBy>, ws: seq<Where>, row: Row)
    requires order != [] && ws != []
    ensures Eval(Combine(order, ws), row).True? <==> exists w | w in ws :: Eval(w, row).True?
  {
    if |ws| == 1 {
      assert ws[0] in ws;
    } else {
      OrIsTrue(ws, row);
      if i :| 0 <= i < |ws| && Eval(ws[i], row).True? {
        assert ws[i] in ws;
      }
    }
  }

  lemma TrueBranchIsFirst(d: Dialect, order: seq<OrderBy>, vals: seq<Value>, j: nat, row: Row)
    requires |order| == |vals| && j < |order| && !NothingAfter(order[j], vals[j]) && Pinned(order, vals)
    requires Eval(Branch(order, vals, j), row).True?
    ensures KeyBefore(d, order, vals, KeyOf(order, row)) && !Hidden(d, order, vals, row)
  {
    BranchIsTrue(d, order, vals, j, row);
    var key := KeyOf(order, row);
    PrefixStop(vals, key, j, FirstDifference(vals, key));
  }

  /** The clause is the order itself, on every row, exactly when no row of the table is hidden from it. */
  lemma ExactIffNoHiddenRow(d: Dialect, order: seq<OrderBy>, vals: seq<Value>, table: seq<Row>)
    requires |order| == |vals| > 0 && Pinned(order, vals) && !AtVeryEnd(order, vals)
    ensures (forall r | r in table :: Eval(Clause(order, vals).value, r).True? <==> KeyBefore(d, order, vals, KeyOf(order, r)))
        <==> (forall r | r in table :: !Hidden(d, order, vals, r))
  {
    forall r | r in table
      ensures (Eval(Clause(order, vals).value, r).True? <==> KeyBefore(d, order, vals, KeyOf(order, r)))
         <==> !Hidden(d, order, vals, r)
    {
      ClauseExact(d, order, vals, r);
      KeyBeforeAt(d, order, vals, KeyOf(order, r));
    }
  }

  /** Pinning every column that holds a NULL leaves nothing hidden. */
  predicate PinnedFor(order: seq<OrderBy>, row: Row) {
    forall i | 0 <= i < |order| :: Get(row, order[i].column).Null? ==> !order[i].nulls.NullsDefault?
  }

  lemma PinnedIsExact(d: Dialect, order: seq<OrderBy>, cursor: Row, row: Row)
    requires order != [] && PinnedFor(order, cursor) && PinnedFor(order, row)
    requires exists i | 0 <= i < |order| :: !Get(cursor, order[i].column).Null?
    ensures Clause(order, KeyOf(order, cursor)).Ok?
    ensures Eval(Clause(order, KeyOf(order, cursor)).value, row).True? <==> RowBefore(d, order, cursor, row)
  {
    var vals := KeyOf(order, cursor);
    var e :| 0 <= e < |order| && !Get(cursor, order[e].column).Null?;
    assert !NothingAfter(order[e], vals[e]);
    ClauseExact(d, order, vals, row);
  }

  /** On Postgres an unpinned ascending column drops its NULL rows from every later page. */
  lemma UnpinnedNullIsDropped()
    ensures var order := [OrderBy("rank", Asc, NullsDefault), OrderBy("id", Asc, NullsDefault)];
            var cursor := map["rank" := V(1), "id" := V(1)];
            var row := map["rank" := Null, "id" := V(2)];
            && RowBefore(Postgres, order, cursor, row)
            && Clause(order, KeyOf(order, cursor)).Ok?
            && !Eval(Clause(order, KeyOf(order, cursor)).value, row).True?
  {
    var order := [OrderBy("rank", Asc, NullsDefault), OrderBy("id", Asc, NullsDefault)];
    var cursor := map["rank" := V(1), "id" := V(1)];
    var row := map["rank" := Null, "id" := V(2)];
    var vals, key := KeyOf(order, cursor), KeyOf(order, row);
    assert FirstBefore(Postgres, order, vals, key, 0);
    assert !NothingAfter(order[0], vals[0]);
    ClauseExact(Postgres, order, vals, row);
  }

  // ---- The fallback -------------------------------------------------------------------------

  /** With no branch left nothing sorts after the cursor, yet the fallback is TRUE on rows with a NULL first column. */
  lemma FallbackMatchesNullRows(d: Dialect, order: seq<OrderBy>, vals: seq<Value>, row: Row)
    requires |order| == |vals| > 0 && AtVeryEnd(order, vals)
    ensures Clause(order, vals).Ok?
    ensures !KeyBefore(d, order, vals, KeyOf(order, row))
    ensures Eval(Clause(order, vals).value, row).True? <==> Get(row, order[0].column).Null?
  {
    BranchesAre(order, vals, |order|);
    OrderedSeqs.HeadIn(Branches(order, vals, |order|));
  }

  // ---- cursorOrder --------------------------------------------------------------------------

  predicate Orders(order: seq<OrderBy>, column: string) {
    exists i | 0 <= i < |order| :: order[i].column == column
  }

  function CursorOrder(orderBy: seq<OrderBy>, pk: seq<string>): (out: seq<OrderBy>)
    decreases |pk|
  {
    if pk == [] then orderBy
    else
      var rest := if Orders(orderBy, pk[0]) then orderBy else orderBy + [OrderBy(pk[0], Asc, NullsDefault)];
      CursorOrder(rest, pk[1..])
  }

  method BuildCursorOrder(orderBy: seq<OrderBy>, pk: seq<string>) returns (out: seq<OrderBy>)
    ensures out == CursorOrder(orderBy, pk)
  {
    out := orderBy;
    for i := 0 to |pk|
      invariant CursorOrder(out, pk[i..]) == CursorOrder(orderBy, pk)
    {
      var seen := false;
      for j := 0 to |out|
        invariant seen <==> exists h | 0 <= h < j :: out[h].column == pk[i]
      {
        if out[j].column == pk[i] { seen := true; break; }
      }
      assert seen <==> Orders(out, pk[i]);
      assert pk[i..][0] == pk[i] && pk[i..][1..] == pk[i + 1..];
      if !seen {
        out := out + [OrderBy(pk[i], Asc, NullsDefault)];
      }
    }
    assert pk[|pk|..] == [];
  }

  /** The caller's ordering comes first, every key column is ordered, and what is added is an ascending key column. */
  lemma {:induction false} CursorOrderCovers(orderBy: seq<OrderBy>, pk: seq<string>)
    ensures orderBy <= CursorOrder(orderBy, pk)
    ensures forall c | c in pk :: Orders(CursorOrder(orderBy, pk), c)
    ensures forall i | |orderBy| <= i < |CursorOrder(orderBy, pk)| ::
              CursorOrder(orderBy, pk)[i].column in pk && CursorOrder(orderBy, pk)[i] == OrderBy(CursorOrder(orderBy, pk)[i].column, Asc, NullsDefault)
    decreases |pk|
  {
    if pk != [] {
      var rest := if Orders(orderBy, pk[0]) then orderBy else orderBy + [OrderBy(pk[0], Asc, NullsDefault)];
      CursorOrderCovers(rest, pk[1..]);
      var out := CursorOrder(orderBy, pk);
      if Orders(orderBy, pk[0]) {
        var i :| 0 <= i < |orderBy| && orderBy[i].column == pk[0];
        assert out[i].column == pk[0];
      } else {
        assert out[|orderBy|].column == pk[0];
      }
    }
  }

  function KeyOrdering(columns: seq<string>): (out: seq<OrderBy>)
    ensures |out| == |columns|
    ensures forall i | 0 <= i < |columns| :: out[i] == OrderBy(columns[i], Asc, NullsDefault)
  {
    seq(|columns|, i requires 0 <= i < |columns| => OrderBy(columns[i], Asc, NullsDefault))
  }

  /** The whole ordering: the caller's, then the key columns the caller does not order, ascending, in key order. */
  lemma {:induction false} CursorOrderExact(orderBy: seq<OrderBy>, pk: seq<string>)
    requires OrderedSeqs.Distinct(pk)
    ensures CursorOrder(orderBy, pk)
         == orderBy + KeyOrdering(OrderedSeqs.Filter((c: string) => !Orders(orderBy, c), pk))
    decreases |pk|
  {
    if pk != [] {
      var c := pk[0];
      var rest := if Orders(orderBy, c) then orderBy else orderBy + [OrderBy(c, Asc, NullsDefault)];
      CursorOrderExact(rest, pk[1..]);
      forall x | x in pk[1..] ensures Orders(rest, x) <==> Orders(orderBy, x) {
        var i :| 0 <= i < |pk[1..]| && pk[1..][i] == x;
        assert pk[0] != pk[i + 1];
        OrdersStays(orderBy, c, x);
      }
      SameFilter((x: string) => !Orders(rest, x), (x: string) => !Orders(orderBy, x), pk[1..]);
      var more := OrderedSeqs.Filter((x: string) => !Orders(orderBy, x), pk[1..]);
      if !Orders(orderBy, c) {
        assert [OrderBy(c, Asc, NullsDefault)] + KeyOrdering(more) == KeyOrdering([c] + more);
      }
    } else {
      assert KeyOrdering([]) == [];
    }
  }

  lemma OrdersStays(orderBy: seq<OrderBy>, c: string, x: string)
    requires c != x
    ensures Orders(orderBy + [OrderBy(c, Asc, NullsDefault)], x) <==> Orders(orderBy, x)
  {
    var longer := orderBy + [OrderBy(c, Asc, NullsDefault)];
    if i :| 0 <= i < |orderBy| && orderBy[i].column == x {
      assert longer[i].column == x;
    }
  }

  lemma {:induction false} SameFilter(p: string -> bool, q: string -> bool, s: seq<string>)
    requires forall x | x in s :: p(x) <==> q(x)
    ensures OrderedSeqs.Filter(p, s) == OrderedSeqs.Filter(q, s)
  {
    if s != [] {
      assert s[0] in s;
      SameFilter(p, q, s[1..]);
    }
  }

  predicate KeyPresent(pk: seq<string>, row: Row) { forall c | c in pk :: !Get(row, c).Null? }

  predicate KeysDiffer(pk: seq<string>, a: Row, b: Row) { exists c | c in pk :: Get(a, c) != Get(b, c) }

  /** With a non-null key in the order the fallback is unreachable. */
  lemma FallbackUnreachable(orderBy: seq<OrderBy>, pk: seq<string>, row: Row)
    requires pk != [] && KeyPresent(pk, row)
    ensures var order := CursorOrder(orderBy, pk); !AtVeryEnd(order, KeyOf(order, row))
    ensures var order := CursorOrder(orderBy, pk); exists i | 0 <= i < |order| :: !Get(row, order[i].column).Null?
  {
    var order := CursorOrder(orderBy, pk);
    CursorOrderCovers(orderBy, pk);
    assert pk[0] in pk;
    var i :| 0 <= i < |order| && order[i].column == pk[0];
    assert !NothingAfter(order[i], KeyOf(order, row)[i]);
  }

  /** Distinct keys make the ordering total: two rows never tie. */
  lemma CursorOrderSeparates(d: Dialect, orderBy: seq<OrderBy>, pk: seq<string>, a: Row, b: Row)
    requires KeysDiffer(pk, a, b)
    ensures var order := CursorOrder(orderBy, pk); RowBefore(d, order, a, b) || RowBefore(d, order, b, a)
  {
    var order := CursorOrder(orderBy, pk);
    CursorOrderCovers(orderBy, pk);
    var c :| c in pk && Get(a, c) != Get(b, c);
    var i :| 0 <= i < |order| && order[i].column == c;
    assert KeyOf(order, a)[i] != KeyOf(order, b)[i];
    KeyBeforeTotal(d, order, KeyOf(order, a), KeyOf(order, b));
  }

  // ---- invertOrder --------------------------------------------------------------------------

  function Flip(o: OrderBy): OrderBy {
    OrderBy(o.column,
            if o.direction.Asc? then Desc else Asc,
            match o.nulls case NullsFirst => NullsLast case NullsLast => NullsFirst case NullsDefault => NullsDefault)
  }

  function Invert(order: seq<OrderBy>): (out: seq<OrderBy>)
    ensures |out| == |order|
  {
    seq(|order|, i requires 0 <= i < |order| => Flip(order[i]))
  }

  method BuildInverted(order: seq<OrderBy>) returns (out: seq<OrderBy>)
    ensures out == Invert(order)
  {
    out := [];
    for i := 0 to |order|
      invariant |out| == i
      invariant forall j | 0 <= j < i :: out[j] == Flip(order[j])
    {
      out := out + [Flip(order[i])];
    }
  }

  lemma InvertInvolution(order: seq<OrderBy>)
    ensures Invert(Invert(order)) == order
  {
    assert |Invert(Invert(order))| == |order|;
    forall i | 0 <= i < |order| ensures Invert(Invert(order))[i] == order[i] {
    }
  }

  /** The inverted order is the mirror image, NULLs included, pinned or not. */
  lemma InvertMirrors(d: Dialect, order: seq<OrderBy>, a: seq<Value>, b: seq<Value>)
    requires |a| == |b| == |order|
    ensures KeyBefore(d, Invert(order), a, b) <==> KeyBefore(d, order, b, a)
  {
    forall k | 0 <= k < |order|
      ensures FirstBefore(d, Invert(order), a, b, k) <==> FirstBefore(d, order, b, a, k)
    {
      assert Invert(order)[k] == Flip(order[k]);
    }
  }
}
