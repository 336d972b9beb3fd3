/** Queries of an include. */
module IncludeQueries {
  // The one query every relation is loaded with: an IN list over a batch of keys, the include's conditions, and a limit for each
  // key, counted by a window over several keys and by a plain LIMIT over one.

  import opened Options
  import opened OrderedSeqs

  datatype Row = Row(pk: int, cols: map<string, int>)

  /** The column a query selects on: the primary key or a foreign key. A NULL column is absent. */
  datatype Col = Pk | Fk(name: string)

  function Val(r: Row, col: Col): Option<int> {
    match col
    case Pk => Some(r.pk)
    case Fk(name) => if name in r.cols then Some(r.cols[name]) else None
  }

  datatype Kind = HasMany | HasOne | BelongsTo | ManyToMany

  /**
   * `keep` is the filters and conditions of the include, `before` its row order if it is `ordered`, `pivot` the source and target
   * keys of the join table.
   */
  datatype Spec = Spec(kind: Kind, table: seq<Row>, fk: string, pivot: seq<(int, int)>, keep: Row -> bool,
                       ordered: bool, before: (Row, Row) -> bool, limit: Option<nat>, nested: seq<Spec>)

  predicate DistinctKeys(rows: seq<Row>) { forall i, j | 0 <= i < j < |rows| :: rows[i].pk != rows[j].pk }

  predicate NoRepeat(vs: seq<int>) { forall i, j | 0 <= i < j < |vs| :: vs[i] != vs[j] }

  // ---- Selections ---------------------------------------------------------------------------

  function Select(rows: seq<Row>, p: Row -> bool): (r: seq<Row>)
    ensures forall x :: x in r <==> x in rows && p(x)
  {
    if rows == [] then []
    else if p(rows[0]) then [rows[0]] + Select(rows[1..], p)
    else Select(rows[1..], p)
  }

  function Having(col: Col, v: int): Row -> bool { (r: Row) => Val(r, col) == Some(v) }

  function Wanted(spec: Spec, col: Col, v: int): Row -> bool { (r: Row) => Val(r, col) == Some(v) && spec.keep(r) }

  function Matching(spec: Spec, col: Col, v: int): seq<Row> { Select(spec.table, Wanted(spec, col, v)) }

  function ByKey(): (Row, Row) -> bool { (a: Row, b: Row) => a.pk < b.pk }

  /** The order a limit counts in: the include's own, or the primary key's when it asks for none. */
  function Order(spec: Spec): (Row, Row) -> bool { if spec.ordered then spec.before else ByKey() }

  function Take(n: nat, rows: seq<Row>): seq<Row> { if n <= |rows| then rows[..n] else rows }

  function Capped(spec: Spec, rows: seq<Row>): seq<Row> {
    match spec.limit
    case None => rows
    case Some(n) => Take(n, Sort(Order(spec), rows))
  }

  /** The rows of one key: all that match, or the first few in order. */
  function Answer(spec: Spec, col: Col, v: int): seq<Row> { Capped(spec, Matching(spec, col, v)) }

  function Answers(spec: Spec, col: Col, vs: seq<int>, n: nat): seq<Row>
    requires n <= |vs|
  {
    if n == 0 then [] else Answers(spec, col, vs, n - 1) + Answer(spec, col, vs[n - 1])
  }

  /** The database promises no order beyond what is asked for. */
  ghost predicate Shuffles(shuffle: seq<Row> -> seq<Row>) { forall s :: multiset(shuffle(s)) == multiset(s) }

  lemma {:induction false} SelectCount(rows: seq<Row>, p: Row -> bool, x: Row)
    ensures multiset(Select(rows, p))[x] == if p(x) then multiset(rows)[x] else 0
  {
    if rows != [] {
      assert rows == [rows[0]] + rows[1..];
      SelectCount(rows[1..], p, x);
    }
  }

  lemma {:induction false} SelectSame(rows: seq<Row>, p: Row -> bool, q: Row -> bool)
    requires forall x | x in rows :: p(x) == q(x)
    ensures Select(rows, p) == Select(rows, q)
  {
    if rows != [] { SelectSame(rows[1..], p, q); }
  }

  lemma {:induction false} SelectAll(rows: seq<Row>, p: Row -> bool)
    requires forall x | x in rows :: p(x)
    ensures Select(rows, p) == rows
  {
    if rows != [] { SelectAll(rows[1..], p); }
  }

  lemma {:induction false} SelectNone(rows: seq<Row>, p: Row -> bool)
    requires forall x | x in rows :: !p(x)
    ensures Select(rows, p) == []
  {
    if rows != [] { SelectNone(rows[1..], p); }
  }

  lemma {:induction false} SelectJoined(a: seq<Row>, b: seq<Row>, p: Row -> bool)
    ensures Select(a + b, p) == Select(a, p) + Select(b, p)
  {
    if a == [] {
      assert a + b == b;
    } else {
      assert (a + b)[1..] == a[1..] + b;
      SelectJoined(a[1..], b, p);
    }
  }

  lemma {:induction false} SortCount(before: (Row, Row) -> bool, rows: seq<Row>)
    ensures multiset(Sort(before, rows)) == multiset(rows)
  {
    if rows != [] {
      assert rows == [rows[0]] + rows[1..];
      SortCount(before, rows[1..]);
      InsertCount(before, rows[0], Sort(before, rows[1..]));
    }
  }

  lemma {:induction false} InsertCount(before: (Row, Row) -> bool, x: Row, q: seq<Row>)
    ensures multiset(Insert(before, x, q)) == multiset([x] + q)
  {
    if q != [] && !before(x, q[0]) {
      InsertCount(before, x, q[1..]);
      assert q == [q[0]] + q[1..];
    }
  }

  lemma SameMembers(a: seq<Row>, b: seq<Row>, x: Row)
    requires multiset(a) == multiset(b)
    ensures x in a <==> x in b
  {
    assert x in a <==> x in multiset(a);
    assert x in b <==> x in multiset(b);
  }

  lemma {:induction false} TableOnce(rows: seq<Row>, x: Row)
    requires DistinctKeys(rows)
    ensures multiset(rows)[x] <= 1
    decreases |rows|
  {
    if rows != [] {
      assert rows == [rows[0]] + rows[1..];
      forall i | 0 <= i < |rows[1..]| ensures rows[1..][i] != rows[0] { assert rows[1..][i] == rows[i + 1]; }
      TableOnce(rows[1..], x);
    }
  }

  lemma TwoPlaces(rows: seq<Row>, i: nat, j: nat)
    requires i < j < |rows| && rows[i] == rows[j]
    ensures multiset(rows)[rows[i]] >= 2
  {
    assert rows == rows[..j] + rows[j..];
    assert rows[..j][i] == rows[i] && rows[j..][0] == rows[j];
    assert rows[i] in multiset(rows[..j]) && rows[i] in multiset(rows[j..]);
  }

  lemma OnceDistinct(rows: seq<Row>)
    requires forall x :: multiset(rows)[x] <= 1
    ensures Distinct(rows)
  {
    forall i, j | 0 <= i < j < |rows| ensures rows[i] != rows[j] {
      if rows[i] == rows[j] { TwoPlaces(rows, i, j); }
    }
  }

  lemma MatchingOnce(spec: Spec, col: Col, v: int, x: Row)
    requires DistinctKeys(spec.table)
    ensures multiset(Matching(spec, col, v))[x] <= 1
  {
    TableOnce(spec.table, x);
    SelectCount(spec.table, Wanted(spec, col, v), x);
  }

  // ---- What a query may return --------------------------------------------------------------

  function Cut(spec: Spec, q: seq<Row>): seq<Row> { match spec.limit case None => q case Some(n) => Take(n, q) }

  ghost predicate Sorted(before: (Row, Row) -> bool, q: seq<Row>) { forall i, j | 0 <= i < j < |q| :: !before(q[j], q[i]) }

  /** What any ORDER BY is; rows it ranks alike may come in either order. */
  ghost predicate Comparison(before: (Row, Row) -> bool) {
    (forall x :: !before(x, x)) && forall x, y, z :: before(x, y) && before(y, z) ==> before(x, z)
  }

  /** A table has a primary key, and an order compares. */
  ghost predicate Proper(spec: Spec) { DistinctKeys(spec.table) && (spec.ordered ==> Comparison(spec.before)) }

  ghost predicate Arranges(spec: Spec, all: seq<Row>, q: seq<Row>) {
    multiset(q) == multiset(all) && (spec.ordered ==> Sorted(spec.before, q))
  }

  /** A query for one key may return its rows in any order that respects the include's, cut to the limit. */
  ghost predicate Returns(spec: Spec, all: seq<Row>, got: seq<Row>) {
    exists q :: Arranges(spec, all, q) && multiset(got) == multiset(Cut(spec, q))
  }

  function Least(n: nat, m: nat): nat { if n <= m then n else m }

  /** Some of a key's rows, as many as there are up to the limit, and none left out comes before one that was taken. */
  ghost predicate First(spec: Spec, all: seq<Row>, got: seq<Row>) {
    && multiset(got) <= multiset(all)
    && (|got| == match spec.limit case None => |all| case Some(n) => Least(n, |all|))
    && (spec.ordered ==> forall x, y | x in got && y in all && y !in got :: !spec.before(y, x))
  }

  lemma TakeCount(n: nat, rows: seq<Row>)
    ensures multiset(Take(n, rows)) <= multiset(rows) && |Take(n, rows)| == Least(n, |rows|)
  {
    if n <= |rows| { assert rows == rows[..n] + rows[n..]; }
  }

  lemma SameSize(a: seq<Row>, b: seq<Row>)
    requires multiset(a) == multiset(b)
    ensures |a| == |b|
  {
    assert |multiset(a)| == |a| && |multiset(b)| == |b|;
  }

  lemma LeftOutIsLater(n: nat, q: seq<Row>, y: Row)
    requires y in q && y !in Take(n, q)
    ensures exists j: nat :: n <= j < |q| && q[j] == y
  {
    var j :| 0 <= j < |q| && q[j] == y;
    if j < n { TakenAt(n, q, j); }
  }

  lemma TakenAt(n: nat, q: seq<Row>, j: nat)
    requires j < |q|
    ensures j < n ==> q[j] in Take(n, q)
  {
    if j < n { assert Take(n, q)[j] == q[j]; }
  }

  /** A limited query returns its first rows. */
  lemma ReturnedFirst(spec: Spec, all: seq<Row>, got: seq<Row>)
    requires Returns(spec, all, got)
    ensures First(spec, all, got)
  {
    var q :| Arranges(spec, all, q) && multiset(got) == multiset(Cut(spec, q));
    SameSize(got, Cut(spec, q));
    SameSize(q, all);
    if spec.limit.Some? { TakeCount(spec.limit.value, q); }
    if spec.ordered {
      forall x, y | x in got && y in all && y !in got ensures !spec.before(y, x) {
        SameMembers(got, Cut(spec, q), x);
        SameMembers(got, Cut(spec, q), y);
        SameMembers(all, q, y);
        var n := if spec.limit.Some? then spec.limit.value else |q|;
        var i :| 0 <= i < |Cut(spec, q)| && Cut(spec, q)[i] == x;
        LeftOutIsLater(n, q, y);
        var j: nat :| n <= j < |q| && q[j] == y;
        assert q[i] == x;
      }
    }
  }

  /** Of one row at most there is one answer. */
  lemma OneReturned(spec: Spec, all: seq<Row>, got: seq<Row>)
    requires |all| <= 1 && Returns(spec, all, got)
    ensures multiset(got) == multiset(Capped(spec, all))
  {
    var q :| Arranges(spec, all, q) && multiset(got) == multiset(Cut(spec, q));
    SameSize(q, all);
    OneSame(q, all);
    SortCount(Order(spec), all);
    SameSize(Sort(Order(spec), all), all);
    OneSame(Sort(Order(spec), all), all);
  }

  lemma OneSame(a: seq<Row>, b: seq<Row>)
    requires |a| == |b| <= 1 && multiset(a) == multiset(b)
    ensures a == b
  {
    if |a| == 1 { SameMembers(a, b, a[0]); assert a[0] in a; }
  }

  lemma SortedAscends(before: (Row, Row) -> bool, q: seq<Row>)
    requires Sorted(before, q) && TotalOn(before, q) && Distinct(q)
    ensures Ascending(before, q)
  {
    forall i, j | 0 <= i < j < |q| ensures before(q[i], q[j]) { assert q[i] in q && q[j] in q && !before(q[j], q[i]); }
  }

  /** A total order sorts the rows in one way only. */
  lemma SortedSame(before: (Row, Row) -> bool, a: seq<Row>, b: seq<Row>)
    requires TotalOn(before, b) && Sorted(before, a) && multiset(a) == multiset(b) && forall x :: multiset(b)[x] <= 1
    ensures a == Sort(before, b)
  {
    OnceDistinct(a);
    OnceDistinct(b);
    forall x ensures x in a <==> x in b { SameMembers(a, b, x); }
    SortAscends(before, b);
    SortedAscends(before, a);
    SortElements(before, b);
    AscendingUnique(before, a, Sort(before, b));
  }

  /** Without a limit, or under an order that decides, a query returns the answer and nothing else. */
  lemma ReturnedAnswer(spec: Spec, col: Col, v: int, got: seq<Row>)
    requires DistinctKeys(spec.table) && Returns(spec, Matching(spec, col, v), got)
    requires spec.limit.None? || (spec.ordered && TotalOn(spec.before, Matching(spec, col, v)))
    ensures multiset(got) == multiset(Answer(spec, col, v))
  {
    var all := Matching(spec, col, v);
    var q :| Arranges(spec, all, q) && multiset(got) == multiset(Cut(spec, q));
    if spec.limit.Some? {
      forall x ensures multiset(all)[x] <= 1 { MatchingOnce(spec, col, v, x); }
      SortedSame(spec.before, q, all);
    }
  }

  lemma {:induction false} InsertSorted(before: (Row, Row) -> bool, x: Row, q: seq<Row>)
    requires Comparison(before) && Sorted(before, q)
    ensures Sorted(before, Insert(before, x, q))
  {
    if q != [] && !before(x, q[0]) {
      InsertSorted(before, x, q[1..]);
      InsertElements(before, x, q[1..]);
      var rest := Insert(before, x, q[1..]);
      forall y | y in rest ensures !before(y, q[0]) {
        if y != x { var k :| 0 <= k < |q[1..]| && q[1..][k] == y; assert q[k + 1] == y; }
      }
      var whole := [q[0]] + rest;
      forall i, j | 0 <= i < j < |whole| ensures !before(whole[j], whole[i]) {
        assert whole[j] == rest[j - 1];
        if i > 0 { assert whole[i] == rest[i - 1]; }
      }
    }
  }

  lemma {:induction false} SortSorted(before: (Row, Row) -> bool, rows: seq<Row>)
    requires Comparison(before)
    ensures Sorted(before, Sort(before, rows))
  {
    if rows != [] {
      SortSorted(before, rows[1..]);
      InsertSorted(before, rows[0], Sort(before, rows[1..]));
    }
  }

  lemma ByKeyIsTotal(rows: seq<Row>)
    requires forall x, y | x in rows && y in rows && x != y :: x.pk != y.pk
    ensures TotalOn(ByKey(), rows)
  {
  }

  // ---- Statements ---------------------------------------------------------------------------

  function InBatch(spec: Spec, col: Col, batch: seq<int>): Row -> bool {
    (r: Row) => Val(r, col).Some? && Val(r, col).value in batch && spec.keep(r)
  }

  function Place(q: seq<Row>, r: Row): nat { if q == [] || q[0] == r then 0 else 1 + Place(q[1..], r) }

  function Same(col: Col, r: Row): Row -> bool { (x: Row) => Val(x, col) == Val(r, col) }

  /** ROW_NUMBER() OVER (PARTITION BY the column ORDER BY the order), counted from zero: the row's place among the rows of its key. */
  function Number(order: (Row, Row) -> bool, col: Col, rows: seq<Row>, r: Row): nat { Place(Sort(order, Select(rows, Same(col, r))), r) }

  /** The rows the window leaves: those with a number below n. */
  function Window(order: (Row, Row) -> bool, col: Col, n: nat, rows: seq<Row>): seq<Row> {
    Select(rows, (r: Row) => Number(order, col, rows, r) < n)
  }

  lemma {:induction false} PlaceIs(q: seq<Row>, x: Row, n: nat)
    requires Distinct(q)
    ensures x in Take(n, q) <==> x in q && Place(q, x) < n
    decreases |q|
  {
    if q != [] && q[0] != x {
      forall i, j | 0 <= i < j < |q[1..]| ensures q[1..][i] != q[1..][j] { assert q[i + 1] != q[j + 1]; }
      if n == 0 {
        assert Take(n, q) == [];
      } else {
        PlaceIs(q[1..], x, n - 1);
        assert Take(n, q) == [q[0]] + Take(n - 1, q[1..]);
      }
    } else if q != [] {
      assert n > 0 ==> Take(n, q)[0] == x;
    }
  }

  lemma OnceCount(q: seq<Row>, x: Row)
    requires Distinct(q)
    ensures multiset(q)[x] == if x in q then 1 else 0
  {
    if x in q {
      var i :| 0 <= i < |q| && q[i] == x;
      assert q == q[..i] + [x] + q[i + 1..];
      assert x !in q[..i] && x !in q[i + 1..];
      assert multiset(q) == multiset(q[..i]) + multiset{x} + multiset(q[i + 1..]);
    }
  }

  /** For each key the window leaves the first n rows of the key, as its own query would number them. */
  lemma WindowOfKey(order: (Row, Row) -> bool, col: Col, n: nat, rows: seq<Row>, v: int)
    requires forall x :: multiset(rows)[x] <= 1
    ensures multiset(Select(Window(order, col, n, rows), Having(col, v))) == multiset(Take(n, Sort(order, Select(rows, Having(col, v)))))
  {
    var own := Select(rows, Having(col, v));
    var q, keep := Sort(order, own), (r: Row) => Number(order, col, rows, r) < n;
    forall x ensures multiset(own)[x] <= 1 { SelectCount(rows, Having(col, v), x); }
    SortCount(order, own);
    OnceDistinct(q);
    forall i, j | 0 <= i < j < |Take(n, q)| ensures Take(n, q)[i] != Take(n, q)[j] { }
    forall x ensures multiset(Select(Window(order, col, n, rows), Having(col, v)))[x] == multiset(Take(n, q))[x] {
      SelectCount(Select(rows, keep), Having(col, v), x);
      SelectCount(rows, keep, x);
      PlaceIs(q, x, n);
      OnceCount(Take(n, q), x);
      SameMembers(q, own, x);
      if Val(x, col) == Some(v) { SelectSame(rows, Same(col, x), Having(col, v)); }
      assert x in rows <==> multiset(rows)[x] == 1;
    }
  }

  // ---- One batch ----------------------------------------------------------------------------

  /** Every row has one of the keys. */
  predicate Keyed(rows: seq<Row>, col: Col, vs: seq<int>) {
    forall r | r in rows :: Val(r, col).Some? && Val(r, col).value in vs
  }

  /** Each key has rows that a query for it alone may return. */
  ghost predicate AllReturned(spec: Spec, col: Col, vs: seq<int>, rows: seq<Row>) {
    forall v | v in vs :: Returns(spec, Matching(spec, col, v), Select(rows, Having(col, v)))
  }

  /** Each key has the answer. */
  ghost predicate AllAnswered(spec: Spec, col: Col, vs: seq<int>, rows: seq<Row>) {
    forall v | v in vs :: multiset(Select(rows, Having(col, v))) == multiset(Answer(spec, col, v))
  }

  /** The rows an IN list selects, in whatever order they come. */
  ghost predicate Selected(spec: Spec, col: Col, batch: seq<int>, sel: seq<Row>) {
    multiset(sel) == multiset(Select(spec.table, InBatch(spec, col, batch)))
  }

  /** Of the rows an IN list selects, those with one key are what a query of the key alone selects. */
  lemma SelectedOfKey(spec: Spec, col: Col, batch: seq<int>, sel: seq<Row>, v: int)
    requires Selected(spec, col, batch, sel) && v in batch
    ensures multiset(Select(sel, Having(col, v))) == multiset(Matching(spec, col, v))
  {
    forall x ensures multiset(Select(sel, Having(col, v)))[x] == multiset(Matching(spec, col, v))[x] {
      SelectCount(sel, Having(col, v), x);
      SelectCount(spec.table, InBatch(spec, col, batch), x);
      SelectCount(spec.table, Wanted(spec, col, v), x);
    }
  }

  lemma SelectedKeyed(spec: Spec, col: Col, batch: seq<int>, sel: seq<Row>)
    requires Selected(spec, col, batch, sel)
    ensures Keyed(sel, col, batch)
  {
    forall r | r in sel ensures Val(r, col).Some? && Val(r, col).value in batch {
      SameMembers(sel, Select(spec.table, InBatch(spec, col, batch)), r);
    }
  }

  lemma SelectedOnce(spec: Spec, col: Col, batch: seq<int>, sel: seq<Row>, x: Row)
    requires Selected(spec, col, batch, sel) && DistinctKeys(spec.table)
    ensures multiset(sel)[x] <= 1
  {
    TableOnce(spec.table, x);
    SelectCount(spec.table, InBatch(spec, col, batch), x);
  }

  lemma SelectPermuted(a: seq<Row>, b: seq<Row>, p: Row -> bool)
    requires multiset(a) == multiset(b)
    ensures multiset(Select(a, p)) == multiset(Select(b, p))
  {
    forall x ensures multiset(Select(a, p))[x] == multiset(Select(b, p))[x] {
      SelectCount(a, p, x);
      SelectCount(b, p, x);
    }
  }

  lemma KeysAreTotal(spec: Spec, col: Col, v: int)
    requires DistinctKeys(spec.table)
    ensures TotalOn(ByKey(), Matching(spec, col, v))
  {
    forall x, y | x in Matching(spec, col, v) && y in Matching(spec, col, v) && x != y ensures x.pk != y.pk {
      var i :| 0 <= i < |spec.table| && spec.table[i] == x;
      var j :| 0 <= j < |spec.table| && spec.table[j] == y;
    }
    ByKeyIsTotal(Matching(spec, col, v));
  }

  lemma SortsBySpec(spec: Spec, own: seq<Row>)
    requires Proper(spec)
    ensures multiset(Sort(Order(spec), own)) == multiset(own)
    ensures spec.ordered ==> Sorted(spec.before, Sort(Order(spec), own))
  {
    SortCount(Order(spec), own);
    if spec.ordered { SortSorted(spec.before, own); }
  }

  lemma WindowedKey(spec: Spec, col: Col, batch: seq<int>, sel: seq<Row>, rows: seq<Row>, v: int)
    requires Proper(spec) && spec.limit.Some? && Selected(spec, col, batch, sel) && v in batch
    requires multiset(rows) == multiset(Window(Order(spec), col, spec.limit.value, sel))
    ensures Returns(spec, Matching(spec, col, v), Select(rows, Having(col, v)))
    ensures !spec.ordered ==> multiset(Select(rows, Having(col, v))) == multiset(Answer(spec, col, v))
  {
    var own := Select(sel, Having(col, v));
    var q := Sort(Order(spec), own);
    forall x ensures multiset(sel)[x] <= 1 { SelectedOnce(spec, col, batch, sel, x); }
    SelectedOfKey(spec, col, batch, sel, v);
    WindowOfKey(Order(spec), col, spec.limit.value, sel, v);
    SelectPermuted(rows, Window(Order(spec), col, spec.limit.value, sel), Having(col, v));
    SortsBySpec(spec, own);
    hide Window, Matching, Select, Selected;
    assert Arranges(spec, Matching(spec, col, v), q);
    if !spec.ordered {
      KeysAreTotal(spec, col, v);
      forall x ensures multiset(Matching(spec, col, v))[x] <= 1 { MatchingOnce(spec, col, v, x); }
      ByKeyCompares();
      SortSorted(ByKey(), own);
      SortedSame(ByKey(), q, Matching(spec, col, v));
    }
  }

  lemma ByKeyCompares()
    ensures Comparison(ByKey())
  {
  }

  lemma WindowedBatch(spec: Spec, col: Col, batch: seq<int>, sel: seq<Row>, rows: seq<Row>)
    requires Proper(spec) && spec.limit.Some? && Selected(spec, col, batch, sel)
    requires multiset(rows) == multiset(Window(Order(spec), col, spec.limit.value, sel))
    ensures Keyed(rows, col, batch) && AllReturned(spec, col, batch, rows)
    ensures !spec.ordered ==> AllAnswered(spec, col, batch, rows)
  {
    SelectedKeyed(spec, col, batch, sel);
    forall r | r in rows ensures r in sel { SameMembers(rows, Window(Order(spec), col, spec.limit.value, sel), r); }
    hide Window, Matching, Answer, Returns, Select, Selected, Proper;
    forall v | v in batch
      ensures Returns(spec, Matching(spec, col, v), Select(rows, Having(col, v)))
      ensures !spec.ordered ==> multiset(Select(rows, Having(col, v))) == multiset(Answer(spec, col, v))
    {
      WindowedKey(spec, col, batch, sel, rows, v);
    }
  }

  lemma SingleBatch(spec: Spec, col: Col, v: int, sel: seq<Row>, q: seq<Row>)
    requires Selected(spec, col, [v], sel) && Arranges(spec, sel, q)
    ensures Keyed(Cut(spec, q), col, [v]) && AllReturned(spec, col, [v], Cut(spec, q))
  {
    var rows := Cut(spec, q);
    SelectedKeyed(spec, col, [v], sel);
    forall r | r in rows ensures r in sel { SameMembers(q, sel, r); }
    forall r | r in sel ensures Val(r, col) == Some(v) { assert Val(r, col).value in [v]; }
    SelectAll(rows, Having(col, v));
    SelectAll(sel, Having(col, v));
    SelectedOfKey(spec, col, [v], sel, v);
    hide Matching, Select, Selected;
    assert Arranges(spec, Matching(spec, col, v), q);
  }

  lemma WholeBatch(spec: Spec, col: Col, batch: seq<int>, sel: seq<Row>)
    requires Proper(spec) && spec.limit.None? && Selected(spec, col, batch, sel)
    ensures Keyed(sel, col, batch) && AllReturned(spec, col, batch, sel)
  {
    SelectedKeyed(spec, col, batch, sel);
    hide Matching, Select, Selected;
    forall v | v in batch ensures Returns(spec, Matching(spec, col, v), Select(sel, Having(col, v))) {
      SelectedOfKey(spec, col, batch, sel, v);
      SortsBySpec(spec, Matching(spec, col, v));
      assert Arranges(spec, Matching(spec, col, v), Sort(Order(spec), Matching(spec, col, v)));
    }
  }

  /** One statement: an IN list, a window that numbers the rows of each key, or for a single key a plain LIMIT. */
  method QueryBatch(spec: Spec, col: Col, batch: seq<int>, shuffle: seq<Row> -> seq<Row>) returns (rows: seq<Row>)
    requires Proper(spec) && batch != [] && Shuffles(shuffle)
    ensures Keyed(rows, col, batch) && AllReturned(spec, col, batch, rows)
    ensures !spec.ordered && |batch| > 1 ==> AllAnswered(spec, col, batch, rows)
  {
    var sel := shuffle(Select(spec.table, InBatch(spec, col, batch)));
    assert Selected(spec, col, batch, sel);
    hide Selected, Window, Keyed, AllReturned, AllAnswered, Proper;
    if spec.limit.None? {
      WholeBatch(spec, col, batch, sel);
      Unlimited(spec, col, batch, sel);
      rows := sel;
    } else if |batch| > 1 {
      rows := shuffle(Window(Order(spec), col, spec.limit.value, sel));
      WindowedBatch(spec, col, batch, sel, rows);
    } else {
      assert batch == [batch[0]];
      var q := if spec.ordered then Sort(spec.before, sel) else sel;
      if spec.ordered { SortsBySpec(spec, sel); }
      SingleBatch(spec, col, batch[0], sel, q);
      rows := Take(spec.limit.value, q);
    }
  }

  lemma Unlimited(spec: Spec, col: Col, vs: seq<int>, rows: seq<Row>)
    requires Proper(spec) && spec.limit.None? && AllReturned(spec, col, vs, rows)
    ensures AllAnswered(spec, col, vs, rows)
  {
    hide Matching, Select, Answer, Returns;
    forall v | v in vs ensures multiset(Select(rows, Having(col, v))) == multiset(Answer(spec, col, v)) {
      ReturnedAnswer(spec, col, v, Select(rows, Having(col, v)));
    }
  }

  // ---- A limit without an order -------------------------------------------------------------

  /** Two queries for one key never differ. */
  ghost predicate Determined(spec: Spec, all: seq<Row>) {
    forall a, b | Returns(spec, all, a) && Returns(spec, all, b) :: multiset(a) == multiset(b)
  }

  lemma OnlyReturn(spec: Spec, all: seq<Row>, got: seq<Row>)
    requires spec.limit.Some? && (spec.limit.value == 0 || |all| <= spec.limit.value) && Returns(spec, all, got)
    ensures multiset(got) == if spec.limit.value == 0 then multiset{} else multiset(all)
  {
    var q :| Arranges(spec, all, q) && multiset(got) == multiset(Cut(spec, q));
    SameSize(q, all);
    if |q| <= spec.limit.value { assert q[..|q|] == q; }
  }

  lemma TwoReturns(spec: Spec, all: seq<Row>) returns (a: seq<Row>, b: seq<Row>)
    requires spec.limit.Some? && !spec.ordered && 0 < spec.limit.value < |all| && Distinct(all)
    ensures Returns(spec, all, a) && Returns(spec, all, b) && multiset(a) != multiset(b)
  {
    var n, q := spec.limit.value, Reverse(all);
    a, b := Take(n, all), Take(n, q);
    ReverseCount(all);
    assert Arranges(spec, all, all) && Arranges(spec, all, q);
    assert b[0] == all[|all| - 1];
    assert b[0] in multiset(b) && b[0] !in multiset(a);
  }

  /** With no order to go by, a plain LIMIT decides which rows a key gets exactly when it takes none of them or all. */
  lemma UnorderedLimitIsArbitrary(spec: Spec, col: Col, v: int)
    requires DistinctKeys(spec.table) && spec.limit.Some? && !spec.ordered
    ensures Determined(spec, Matching(spec, col, v)) <==> spec.limit.value == 0 || |Matching(spec, col, v)| <= spec.limit.value
  {
    var all := Matching(spec, col, v);
    forall x ensures multiset(all)[x] <= 1 { MatchingOnce(spec, col, v, x); }
    OnceDistinct(all);
    hide Matching, Returns;
    if spec.limit.value == 0 || |all| <= spec.limit.value {
      forall a, b | Returns(spec, all, a) && Returns(spec, all, b) ensures multiset(a) == multiset(b) {
        OnlyReturn(spec, all, a);
        OnlyReturn(spec, all, b);
      }
    } else {
      var a, b := TwoReturns(spec, all);
    }
  }

  lemma {:induction false} ReverseCount(s: seq<Row>)
    ensures multiset(Reverse(s)) == multiset(s)
  {
    if s != [] {
      ReverseCount(s[1..]);
      assert s == [s[0]] + s[1..];
    }
  }
}
