/** The fragment of SQL that keyset pagination compiles to: nullable values, WHERE trees, ORDER BY. */
module Sql {
  /** A column value. Only the order of the values matters, so integers stand for any ordered column type. */
  datatype Value = Null | V(n: int)

  type Row = map<string, Value>

  function Get(row: Row, column: string): Value {
    if column in row then row[column] else Null
  }

  datatype Op = OpEq | OpGT | OpLT | OpIsNull | OpIsNotNull

  datatype Where =
    | Cmp(column: string, op: Op, value: Value)
    | And(children: seq<Where>)
    | Or(children: seq<Where>)

  /** SQL truth values. */
  datatype Truth = True | False | Unknown

  function FromBool(b: bool): Truth { if b then True else False }

  function Conj(a: Truth, b: Truth): Truth {
    if a.False? || b.False? then False else if a.True? && b.True? then True else Unknown
  }

  function Disj(a: Truth, b: Truth): Truth {
    if a.True? || b.True? then True else if a.False? && b.False? then False else Unknown
  }

  /** Comparisons with NULL are UNKNOWN; the IS NULL tests never are. */
  function Compare(op: Op, left: Value, right: Value): Truth {
    match op
    case OpIsNull => FromBool(left.Null?)
    case OpIsNotNull => FromBool(!left.Null?)
    case OpEq => if left.Null? || right.Null? then Unknown else FromBool(left.n == right.n)
    case OpGT => if left.Null? || right.Null? then Unknown else FromBool(left.n > right.n)
    case OpLT => if left.Null? || right.Null? then Unknown else FromBool(left.n < right.n)
  }

  function Eval(w: Where, row: Row): Truth
    decreases w
  {
    match w
    case Cmp(column, op, value) => Compare(op, Get(row, column), value)
    case And(children) => EvalAnd(children, row)
    case Or(children) => EvalOr(children, row)
  }

  function EvalAnd(ws: seq<Where>, row: Row): Truth
    decreases ws
  {
    if ws == [] then True else Conj(Eval(ws[0], row), EvalAnd(ws[1..], row))
  }

  function EvalOr(ws: seq<Where>, row: Row): Truth
    decreases ws
  {
    if ws == [] then False else Disj(Eval(ws[0], row), EvalOr(ws[1..], row))
  }

  lemma {:induction false} AndIsTrue(ws: seq<Where>, row: Row)
    ensures EvalAnd(ws, row).True? <==> forall i | 0 <= i < |ws| :: Eval(ws[i], row).True?
  {
    if ws != [] {
      AndIsTrue(ws[1..], row);
      assert forall i | 0 < i < |ws| :: ws[i] == ws[1..][i - 1];
    }
  }

  lemma {:induction false} OrIsTrue(ws: seq<Where>, row: Row)
    ensures EvalOr(ws, row).True? <==> exists i | 0 <= i < |ws| :: Eval(ws[i], row).True?
  {
    if ws != [] {
      OrIsTrue(ws[1..], row);
      assert forall i | 0 < i < |ws| :: ws[i] == ws[1..][i - 1];
      if i :| 0 <= i < |ws[1..]| && Eval(ws[1..][i], row).True? {
        assert Eval(ws[i + 1], row).True?;
      }
    }
  }

  datatype Direction = Asc | Desc
  datatype Nulls = NullsDefault | NullsFirst | NullsLast
  datatype OrderBy = OrderBy(column: string, direction: Direction, nulls: Nulls)

  datatype Dialect = Postgres | SQLite

  /** Where the database puts the NULLs of one ordering column. */
  predicate NullsAreLast(d: Dialect, o: OrderBy) {
    match o.nulls
    case NullsFirst => false
    case NullsLast => true
    case NullsDefault => d.Postgres? <==> o.direction.Asc?
  }

  /** One column value sorts strictly before another. */
  predicate ColumnBefore(d: Dialect, o: OrderBy, a: Value, b: Value) {
    if a == b then false
    else if a.Null? then !NullsAreLast(d, o)
    else if b.Null? then NullsAreLast(d, o)
    else if o.direction.Asc? then a.n < b.n else a.n > b.n
  }

  /** The ordering key of a row. */
  function KeyOf(order: seq<OrderBy>, row: Row): (k: seq<Value>)
    ensures |k| == |order|
  {
    seq(|order|, i requires 0 <= i < |order| => Get(row, order[i].column))
  }

  /** `a` and `b` agree before column `k` and `a` sorts first on it. */
  predicate FirstBefore(d: Dialect, order: seq<OrderBy>, a: seq<Value>, b: seq<Value>, k: nat)
    requires |a| == |b| == |order| && k < |order|
  {
    a[..k] == b[..k] && ColumnBefore(d, order[k], a[k], b[k])
  }

  /** The lexicographic order of ORDER BY on ordering keys. */
  predicate KeyBefore(d: Dialect, order: seq<OrderBy>, a: seq<Value>, b: seq<Value>)
    requires |a| == |b| == |order|
  {
    exists k | 0 <= k < |order| :: FirstBefore(d, order, a, b, k)
  }

  predicate RowBefore(d: Dialect, order: seq<OrderBy>, a: Row, b: Row) {
    KeyBefore(d, order, KeyOf(order, a), KeyOf(order, b))
  }

  /** RowBefore as one comparison value, so that a query result can be written `Sort(Less(d, order), rows)`. */
  function Less(d: Dialect, order: seq<OrderBy>): (Row, Row) -> bool {
    (a: Row, b: Row) => RowBefore(d, order, a, b)
  }

  function FirstDifference(a: seq<Value>, b: seq<Value>): (k: nat)
    requires |a| == |b|
    ensures k <= |a| && a[..k] == b[..k]
    ensures k < |a| ==> a[k] != b[k]
    ensures k == |a| ==> a == b
  {
    if a == [] || a[0] != b[0] then 0
    else
      var k := 1 + FirstDifference(a[1..], b[1..]);
      assert a == [a[0]] + a[1..] && b == [b[0]] + b[1..];
      k
  }

  /** The order is decided at the first difference of the two keys. */
  lemma KeyBeforeAt(d: Dialect, order: seq<OrderBy>, a: seq<Value>, b: seq<Value>)
    requires |a| == |b| == |order|
    ensures var k := FirstDifference(a, b);
            KeyBefore(d, order, a, b) <==> k < |order| && ColumnBefore(d, order[k], a[k], b[k])
  {
    var k := FirstDifference(a, b);
    if j :| 0 <= j < |order| && FirstBefore(d, order, a, b, j) {
      PrefixStop(a, b, j, k);
    }
    if k < |order| && ColumnBefore(d, order[k], a[k], b[k]) {
      assert FirstBefore(d, order, a, b, k);
    }
  }

  lemma PrefixAgrees(a: seq<Value>, b: seq<Value>, k: nat)
    requires k <= |a| && k <= |b| && a[..k] == b[..k]
    ensures forall i | 0 <= i < k :: a[i] == b[i]
  {
    forall i | 0 <= i < k ensures a[i] == b[i] {
      assert a[..k][i] == b[..k][i];
    }
  }

  lemma PrefixStop(a: seq<Value>, b: seq<Value>, j: nat, k: nat)
    requires |a| == |b| && j < |a| && k <= |a|
    requires a[..j] == b[..j] && a[j] != b[j]
    requires a[..k] == b[..k] && (k < |a| ==> a[k] != b[k])
    ensures j == k
  {
    PrefixAgrees(a, b, j);
    PrefixAgrees(a, b, k);
  }

  lemma KeyBeforeIrreflexive(d: Dialect, order: seq<OrderBy>, a: seq<Value>)
    requires |a| == |order|
    ensures !KeyBefore(d, order, a, a)
  {
  }

  lemma KeyBeforeTotal(d: Dialect, order: seq<OrderBy>, a: seq<Value>, b: seq<Value>)
    requires |a| == |b| == |order| && a != b
    ensures KeyBefore(d, order, a, b) || KeyBefore(d, order, b, a)
  {
    var k := FirstDifference(a, b);
    assert FirstBefore(d, order, a, b, k) || FirstBefore(d, order, b, a, k);
  }

  lemma KeyBeforeTransitive(d: Dialect, order: seq<OrderBy>, a: seq<Value>, b: seq<Value>, c: seq<Value>)
    requires |a| == |b| == |c| == |order|
    requires KeyBefore(d, order, a, b) && KeyBefore(d, order, b, c)
    ensures KeyBefore(d, order, a, c)
  {
    var i :| 0 <= i < |order| && FirstBefore(d, order, a, b, i);
    var j :| 0 <= j < |order| && FirstBefore(d, order, b, c, j);
    var k := if i < j then i else j;
    assert a[..k] == a[..i][..k] == b[..i][..k] == b[..k];
    assert b[..k] == b[..j][..k] == c[..j][..k] == c[..k];
    if i < j {
      assert b[..j][i] == c[..j][i];
    } else if j < i {
      assert a[..i][j] == b[..i][j];
    }
    assert FirstBefore(d, order, a, c, k);
  }
}
