/** Postgres up lists. */
module PgReplay {
  // The in-place diff of a table on Postgres, and what replaying its up list on the old table gives.

  import opened Options
  import opened Schema
  import opened Renames

  /** What a diff compares of a column: type, nullability, default. `key` when it is part of the primary key. */
  datatype Shape = Shape(sqlType: SqlType, notNull: bool, fallback: Value, key: bool)

  function ShapeOf(c: Column): Shape { Shape(c.def.sqlType, c.def.notNull, c.def.fallback, c.pk) }

  datatype PgTable = PgTable(columns: map<string, Shape>, indexes: map<string, Index>)

  datatype Step =
    | RenameCol(column: string, to: string)
    | AddCol(column: string, shape: Shape)
    | DropCol(column: string)
    | SetType(column: string, sqlType: SqlType)
    | SetNotNull(column: string, notNull: bool)
    | SetFallback(column: string, fallback: Value)
    | MakeIndex(index: Index)
    | DropIndex(name: string)

  function ShapeMap(columns: seq<Column>): map<string, Shape> {
    if columns == [] then map[] else ShapeMap(columns[..|columns| - 1])[columns[|columns| - 1].name := ShapeOf(columns[|columns| - 1])]
  }

  /** The table a declaration stands for. */
  function PgOf(t: Table): PgTable { PgTable(ShapeMap(t.columns), IndexMap(t.indexes)) }

  predicate Involves(x: Index, column: string) { column in x.columns || Mentions(x.where, column) }

  /** Operators take the columns of the index, and its predicate, as they are typed. */
  predicate Legible(x: Index, columns: map<string, Shape>) {
    var types := map c | c in columns && Involves(x, c) :: columns[c].sqlType.name;
    forall c | c in columns && Involves(x, c) :: Misread(x.columns, x.where, types) !in columns[c].sqlType.misreads
  }

  predicate Fits(t: PgTable, x: Index) {
    (forall c | c in x.columns :: c in t.columns) && (forall i | 0 <= i < |x.where| && x.where[i].Name? :: x.where[i].name in t.columns)
  }

  /** Every index that involves the column reads. */
  predicate AllLegible(indexes: map<string, Index>, columns: map<string, Shape>, column: string) {
    forall x | x in indexes && Involves(indexes[x], column) :: Legible(indexes[x], columns)
  }

  // ---- What Postgres does -------------------------------------------------------------------

  function RenamedIndexes(indexes: map<string, Index>, a: string, b: string): map<string, Index> {
    map x | x in indexes :: RenamedIndex(indexes[x], a, b)
  }

  /** The type has a cast to the new one, and the default the column holds, a sequence's included, an assignment cast. */
  predicate Retypes(o: Shape, v: SqlType) {
    !v.keyed && o.sqlType.name in v.casts && ((o.fallback.Null? && !o.sqlType.keyed) || o.sqlType.name in v.accepts)
  }

  predicate ReadsAs(v: Value, t: SqlType) { v.Null? || v.value in t.literals }

  predicate HasKey(t: PgTable) { exists c | c in t.columns :: t.columns[c].key }

  /** Dropping a column of the key drops the key. */
  function Undeclared(columns: map<string, Shape>, c: string): map<string, Shape>
    requires c in columns
  {
    if columns[c].key then map x | x in columns && x != c :: columns[x].(key := false) else columns - {c}
  }

  /**
   * A column added later is a key only if its type says so, and a table has one key. A key column stays NOT NULL. A type
   * changes only when the default in place can be cast, and it builds the indexes that involve the column again. Dropping a
   * column drops them. Index names are unique across tables: `others` are taken.
   */
  function ExecutePg(t: PgTable, s: Step, others: set<string>): Option<PgTable> {
    match s
    case RenameCol(a, b) =>
      if a in t.columns && b !in t.columns then Some(PgTable(RenamedRow(t.columns, a, b), RenamedIndexes(t.indexes, a, b))) else None
    case AddCol(c, shape) =>
      var key := shape.key && shape.sqlType.keyed;
      if c !in t.columns && !(key && HasKey(t)) then Some(t.(columns := t.columns[c := shape.(key := key)])) else None
    case DropCol(c) =>
      if c in t.columns then Some(PgTable(Undeclared(t.columns, c), map x | x in t.indexes && !Involves(t.indexes[x], c) :: t.indexes[x])) else None
    case SetType(c, v) =>
      if c in t.columns && Retypes(t.columns[c], v) && AllLegible(t.indexes, t.columns[c := t.columns[c].(sqlType := v)], c)
      then Some(t.(columns := t.columns[c := t.columns[c].(sqlType := v)])) else None
    case SetNotNull(c, v) =>
      if c in t.columns && (v || !t.columns[c].key) then Some(t.(columns := t.columns[c := t.columns[c].(notNull := v)])) else None
    case SetFallback(c, v) =>
      if c in t.columns && ReadsAs(v, t.columns[c].sqlType) then Some(t.(columns := t.columns[c := t.columns[c].(fallback := v)])) else None
    case MakeIndex(x) =>
      if x.name in t.indexes || x.name in others then Some(t)
      else if Fits(t, x) && Legible(x, t.columns) then Some(t.(indexes := t.indexes[x.name := x]))
      else None
    case DropIndex(name) => if name in others then None else Some(t.(indexes := t.indexes - {name}))
  }

  function RunPg(t: PgTable, ss: seq<Step>, others: set<string>): Option<PgTable>
    decreases |ss|
  {
    if ss == [] then Some(t)
    else match ExecutePg(t, ss[0], others) case None => None case Some(next) => RunPg(next, ss[1..], others)
  }

  lemma {:induction false} PgJoined(t: PgTable, a: seq<Step>, b: seq<Step>, others: set<string>)
    ensures RunPg(t, a + b, others) == match RunPg(t, a, others) case None => None case Some(next) => RunPg(next, b, others)
    decreases |a|
  {
    hide ExecutePg;
    if a == [] {
      assert a + b == b;
    } else {
      assert (a + b)[1..] == a[1..] + b;
      match ExecutePg(t, a[0], others)
      case None =>
      case Some(next) => PgJoined(next, a[1..], b, others);
    }
  }

  lemma OnePg(t: PgTable, s: Step, others: set<string>)
    ensures RunPg(t, [s], others) == ExecutePg(t, s, others)
  {
    hide ExecutePg;
    assert [s][1..] == [];
  }

  // ---- The up list --------------------------------------------------------------------------

  /** The old column a new name stands for, if any. */
  function OldShape(columns: seq<Column>, renames: seq<Rename>, name: string): Option<Shape> {
    if columns == [] then None
    else if Lookup(renames, columns[0].name) == name then Some(ShapeOf(columns[0]))
    else OldShape(columns[1..], renames, name)
  }

  function RenameCols(renames: seq<Rename>): seq<Step>
    decreases |renames|
  {
    if renames == [] then [] else [RenameCol(renames[0].was, renames[0].becomes)] + RenameCols(renames[1..])
  }

  function AddCols(before: Table, after: Table, renames: seq<Rename>, n: nat): seq<Step>
    requires n <= |after.columns|
  {
    if n == 0 then []
    else
      var c := after.columns[n - 1];
      AddCols(before, after, renames, n - 1) + if OldShape(before.columns, renames, c.name).None? then [AddCol(c.name, ShapeOf(c))] else []
  }

  function DropCols(before: Table, after: Table, renames: seq<Rename>, n: nat): seq<Step>
    requires n <= |before.columns|
  {
    if n == 0 then []
    else
      var c := before.columns[n - 1];
      DropCols(before, after, renames, n - 1) + if !Declares(after.columns, Lookup(renames, c.name)) then [DropCol(c.name)] else []
  }

  function TypeStep(name: string, a: Shape, b: Shape): seq<Step> { if a.sqlType != b.sqlType then [SetType(name, b.sqlType)] else [] }

  function NullStep(name: string, a: Shape, b: Shape): seq<Step> { if a.notNull != b.notNull then [SetNotNull(name, b.notNull)] else [] }

  function DefaultStep(name: string, a: Shape, b: Shape): seq<Step> { if a.fallback != b.fallback then [SetFallback(name, b.fallback)] else [] }

  function AlterSteps(name: string, o: Shape, n: Shape): seq<Step> { TypeStep(name, o, n) + NullStep(name, o, n) + DefaultStep(name, o, n) }

  function AlterCols(before: Table, after: Table, renames: seq<Rename>, n: nat): seq<Step>
    requires n <= |after.columns|
  {
    if n == 0 then []
    else
      var c := after.columns[n - 1];
      var o := OldShape(before.columns, renames, c.name);
      AlterCols(before, after, renames, n - 1) + if o.Some? then AlterSteps(c.name, o.value, ShapeOf(c)) else []
  }

  function NewIndexes(before: Table, after: Table, n: nat): seq<Step>
    requires n <= |after.indexes|
  {
    if n == 0 then []
    else
      var x, olds := after.indexes[n - 1], IndexMap(before.indexes);
      NewIndexes(before, after, n - 1)
      + if x.name !in olds then [MakeIndex(x)] else if olds[x.name] != x then [DropIndex(x.name), MakeIndex(x)] else []
  }

  function OldIndexes(before: Table, after: Table, n: nat): seq<Step>
    requires n <= |before.indexes|
  {
    if n == 0 then []
    else
      var x := before.indexes[n - 1];
      OldIndexes(before, after, n - 1) + if x.name !in IndexMap(after.indexes) then [DropIndex(x.name)] else []
  }

  function UpList(before: Table, after: Table, renames: seq<Rename>): seq<Step> {
    RenameCols(renames) + AddCols(before, after, renames, |after.columns|) + DropCols(before, after, renames, |before.columns|)
    + AlterCols(before, after, renames, |after.columns|)
    + NewIndexes(before, after, |after.indexes|) + OldIndexes(before, after, |before.indexes|)
  }

  // ---- Column by column ---------------------------------------------------------------------

  lemma {:induction false} ShapeMapHas(columns: seq<Column>, i: nat)
    requires DistinctColumns(columns) && i < |columns|
    ensures columns[i].name in ShapeMap(columns) && ShapeMap(columns)[columns[i].name] == ShapeOf(columns[i])
    decreases |columns|
  {
    var n := |columns| - 1;
    if i < n { ShapeMapHas(columns[..n], i); }
  }

  lemma {:induction false} ShapeMapKeys(columns: seq<Column>)
    ensures ShapeMap(columns).Keys == ColumnNames(columns)
    decreases |columns|
  {
    if columns != [] {
      var n := |columns| - 1;
      ShapeMapKeys(columns[..n]);
      assert ColumnNames(columns) == ColumnNames(columns[..n]) + {columns[n].name};
    }
  }

  /** An index after the renames, one after the other. */
  function IndexAfter(x: Index, renames: seq<Rename>): Index
    decreases |renames|
  {
    if renames == [] then x else IndexAfter(RenamedIndex(x, renames[0].was, renames[0].becomes), renames[1..])
  }

  function IndexesAfter(indexes: map<string, Index>, renames: seq<Rename>): map<string, Index> {
    map x | x in indexes :: IndexAfter(indexes[x], renames)
  }

  lemma {:induction false} RunRenames(t: PgTable, renames: seq<Rename>, others: set<string>)
    requires Accepted(t.columns.Keys, renames)
    ensures RunPg(t, RenameCols(renames), others) == Some(PgTable(RowAfter(t.columns, renames), IndexesAfter(t.indexes, renames)))
    decreases |renames|
  {
    if renames == [] {
      assert IndexesAfter(t.indexes, renames) == t.indexes;
    } else {
      var a, b := renames[0].was, renames[0].becomes;
      var next := PgTable(RenamedRow(t.columns, a, b), RenamedIndexes(t.indexes, a, b));
      assert [RenameCol(a, b)] + RenameCols(renames[1..]) == RenameCols(renames);
      assert RenameCols(renames)[1..] == RenameCols(renames[1..]);
      AcceptedRest(t.columns.Keys, renames);
      assert next.columns.Keys == t.columns.Keys - {a} + {b};
      RunRenames(next, renames[1..], others);
      assert IndexesAfter(next.indexes, renames[1..]) == IndexesAfter(t.indexes, renames);
    }
  }

  lemma {:induction false} RenamesLeave(x: Index, renames: seq<Rename>)
    requires forall i | 0 <= i < |renames| :: !Involves(x, renames[i].was)
    ensures IndexAfter(x, renames) == x
    decreases |renames|
  {
    if renames != [] {
      RenameLeaves(x, renames[0].was, renames[0].becomes);
      forall i | 0 <= i < |renames[1..]| ensures renames[1..][i] == renames[i + 1] { }
      RenamesLeave(x, renames[1..]);
    }
  }

  lemma RenameLeaves(x: Index, a: string, b: string)
    requires !Involves(x, a)
    ensures RenamedIndex(x, a, b) == x
  {
    forall i | 0 <= i < |x.columns| ensures RenamedAll(x.columns, a, b)[i] == x.columns[i] { assert x.columns[i] in x.columns; }
    assert RenamedAll(x.columns, a, b) == x.columns;
    forall i | 0 <= i < |x.where| ensures RenamedWhere(x.where, a, b)[i] == x.where[i] { assert !Mentions(x.where, a); }
    assert RenamedWhere(x.where, a, b) == x.where;
  }

  lemma {:induction false} RowAfterKey<V>(row: map<string, V>, renames: seq<Rename>, k: string) returns (c: string)
    requires Accepted(row.Keys, renames) && k in RowAfter(row, renames)
    ensures c in row && After(renames, c) == k
    decreases |renames|
  {
    if renames == [] {
      c := k;
    } else {
      var a, b := renames[0].was, renames[0].becomes;
      var next := RenamedRow(row, a, b);
      AcceptedRest(row.Keys, renames);
      assert next.Keys == row.Keys - {a} + {b};
      var d := RowAfterKey(next, renames[1..], k);
      c := if d == b then a else d;
    }
  }

  lemma {:induction false} OldShapeFrom(columns: seq<Column>, renames: seq<Rename>, name: string)
    ensures OldShape(columns, renames, name).Some? <==> exists i | 0 <= i < |columns| :: Lookup(renames, columns[i].name) == name
    ensures OldShape(columns, renames, name).Some? ==>
              exists i | 0 <= i < |columns| :: Lookup(renames, columns[i].name) == name && OldShape(columns, renames, name).value == ShapeOf(columns[i])
    decreases |columns|
  {
    if columns != [] && Lookup(renames, columns[0].name) != name {
      OldShapeFrom(columns[1..], renames, name);
      var rest := columns[1..];
      forall i | 0 <= i < |rest| ensures rest[i] == columns[i + 1] { }
      if i :| 0 <= i < |columns| && Lookup(renames, columns[i].name) == name { assert rest[i - 1] == columns[i]; }
    }
  }

  /** After the renames a name holds the shape of the old column it stands for, and only such names are there. */
  lemma HeldAfterRenames(before: Table, renames: seq<Rename>, name: string)
    requires DistinctColumns(before.columns) && Accepted(ColumnNames(before.columns), renames)
    ensures var held := RowAfter(ShapeMap(before.columns), renames);
            var o := OldShape(before.columns, renames, name);
            (name in held <==> o.Some?) && (o.Some? ==> held[name] == o.value)
  {
    var shapes := ShapeMap(before.columns);
    ShapeMapKeys(before.columns);
    OldShapeFrom(before.columns, renames, name);
    if OldShape(before.columns, renames, name).Some? {
      var i :| 0 <= i < |before.columns| && Lookup(renames, before.columns[i].name) == name
               && OldShape(before.columns, renames, name).value == ShapeOf(before.columns[i]);
      ShapeMapHas(before.columns, i);
      LookupIsAfter(ColumnNames(before.columns), renames, before.columns[i].name);
      ValueAfter(shapes, renames, before.columns[i].name);
    }
    if name in RowAfter(shapes, renames) {
      var c := RowAfterKey(shapes, renames, name);
      LookupIsAfter(ColumnNames(before.columns), renames, c);
      var i :| 0 <= i < |before.columns| && before.columns[i].name == c;
    }
  }

  function Get<V>(m: map<string, V>, k: string): Option<V> { if k in m then Some(m[k]) else None }

  /** The shape the first n columns declare for a name. */
  function ShapeAmong(columns: seq<Column>, n: nat, name: string): Option<Shape>
    requires n <= |columns|
  {
    if n == 0 then None else if columns[n - 1].name == name then Some(ShapeOf(columns[n - 1])) else ShapeAmong(columns, n - 1, name)
  }

  ghost predicate AddsNoKey(before: Table, after: Table, renames: seq<Rename>) {
    forall i | 0 <= i < |after.columns| && OldShape(before.columns, renames, after.columns[i].name).None? :: !after.columns[i].pk
  }

  lemma {:induction false} RunAdds(t: PgTable, before: Table, after: Table, renames: seq<Rename>, n: nat, others: set<string>) returns (r: PgTable)
    requires n <= |after.columns| && DistinctColumns(after.columns)
    requires forall name :: name in t.columns <==> OldShape(before.columns, renames, name).Some?
    requires AddsNoKey(before, after, renames)
    ensures RunPg(t, AddCols(before, after, renames, n), others) == Some(r) && r.indexes == t.indexes
    ensures forall c :: Get(r.columns, c) == if c in t.columns then Get(t.columns, c) else ShapeAmong(after.columns, n, c)
  {
    hide OldShape, RunPg, ExecutePg;
    if n == 0 {
      r := t;
      NothingRun(t, others);
    } else {
      var m := RunAdds(t, before, after, renames, n - 1, others);
      var c := after.columns[n - 1];
      r := m;
      if OldShape(before.columns, renames, c.name).None? {
        PgJoined(t, AddCols(before, after, renames, n - 1), [AddCol(c.name, ShapeOf(c))], others);
        NotAmong(after.columns, n - 1);
        assert Get(m.columns, c.name).None?;
        r := AddOne(m, c.name, ShapeOf(c), others);
      } else {
        assert AddCols(before, after, renames, n) == AddCols(before, after, renames, n - 1);
      }
    }
  }

  lemma NothingRun(t: PgTable, others: set<string>)
    ensures RunPg(t, [], others) == Some(t)
  {
  }

  lemma AddOne(t: PgTable, name: string, shape: Shape, others: set<string>) returns (r: PgTable)
    requires name !in t.columns && !shape.key
    ensures RunPg(t, [AddCol(name, shape)], others) == Some(r) && r == t.(columns := t.columns[name := shape])
  {
    OnePg(t, AddCol(name, shape), others);
    r := t.(columns := t.columns[name := shape]);
  }

  lemma {:induction false} NotAmong(columns: seq<Column>, n: nat)
    requires DistinctColumns(columns) && n < |columns|
    ensures ShapeAmong(columns, n, columns[n].name).None?
  {
    NotAmongBelow(columns, n, n);
  }

  lemma {:induction false} NotAmongBelow(columns: seq<Column>, n: nat, m: nat)
    requires DistinctColumns(columns) && m <= n < |columns|
    ensures ShapeAmong(columns, m, columns[n].name).None?
  {
    if m > 0 { NotAmongBelow(columns, n, m - 1); }
  }

  /** One of the first n old columns is dropped under this name. */
  predicate Goes(before: Table, after: Table, renames: seq<Rename>, n: nat, c: string) {
    exists i | 0 <= i < n && i < |before.columns| :: before.columns[i].name == c && !Declares(after.columns, Lookup(renames, c))
  }

  /** The indexes that involve none of the first n columns, as far as those go. */
  function Spared(indexes: map<string, Index>, before: Table, after: Table, renames: seq<Rename>, n: nat): map<string, Index> {
    map x | x in indexes && (forall i | 0 <= i < n && i < |before.columns| && Goes(before, after, renames, n, before.columns[i].name) ::
              !Involves(indexes[x], before.columns[i].name)) :: indexes[x]
  }

  lemma {:induction false} RunDrops(t: PgTable, before: Table, after: Table, renames: seq<Rename>, n: nat, others: set<string>) returns (r: PgTable)
    requires n <= |before.columns| && DistinctColumns(before.columns)
    requires forall i | 0 <= i < |before.columns| && !Declares(after.columns, Lookup(renames, before.columns[i].name)) ::
               before.columns[i].name in t.columns && !t.columns[before.columns[i].name].key
    ensures RunPg(t, DropCols(before, after, renames, n), others) == Some(r)
    ensures forall c :: Get(r.columns, c) == if Goes(before, after, renames, n, c) then None else Get(t.columns, c)
    ensures r.indexes == Spared(t.indexes, before, after, renames, n)
  {
    hide RunPg, ExecutePg, Lookup, Declares, Involves;
    if n == 0 {
      r := t;
      NothingRun(t, others);
      assert Spared(t.indexes, before, after, renames, 0) == t.indexes;
    } else {
      var m := RunDrops(t, before, after, renames, n - 1, others);
      var c := before.columns[n - 1];
      r := m;
      if !Declares(after.columns, Lookup(renames, c.name)) {
        PgJoined(t, DropCols(before, after, renames, n - 1), [DropCol(c.name)], others);
        assert Get(t.columns, c.name).Some?;
        r := DropOne(m, c.name, others);
        forall d ensures Goes(before, after, renames, n, d) <==> d == c.name || Goes(before, after, renames, n - 1, d) { }
      } else {
        assert DropCols(before, after, renames, n) == DropCols(before, after, renames, n - 1);
        forall d ensures Goes(before, after, renames, n, d) <==> Goes(before, after, renames, n - 1, d) { }
      }
      SparedNext(t.indexes, before, after, renames, n);
    }
  }

  lemma SparedNext(indexes: map<string, Index>, before: Table, after: Table, renames: seq<Rename>, n: nat)
    requires 0 < n <= |before.columns| && DistinctColumns(before.columns)
    ensures var c, spared := before.columns[n - 1].name, Spared(indexes, before, after, renames, n - 1);
            Spared(indexes, before, after, renames, n) ==
            if Declares(after.columns, Lookup(renames, c)) then spared else map x | x in spared && !Involves(spared[x], c) :: spared[x]
  {
    var c, spared := before.columns[n - 1].name, Spared(indexes, before, after, renames, n - 1);
    var gone := !Declares(after.columns, Lookup(renames, c));
    hide Lookup, Declares, Involves;
    forall d ensures Goes(before, after, renames, n, d) <==> (gone && d == c) || Goes(before, after, renames, n - 1, d) { }
    hide Goes;
    forall x | x in indexes ensures x in Spared(indexes, before, after, renames, n) <==> x in spared && (gone ==> !Involves(indexes[x], c)) {
      forall i | 0 <= i < n - 1 ensures before.columns[i].name != c { }
    }
  }

  lemma DropOne(t: PgTable, name: string, others: set<string>) returns (r: PgTable)
    requires name in t.columns && !t.columns[name].key
    ensures RunPg(t, [DropCol(name)], others) == Some(r) && r.columns == t.columns - {name}
    ensures r.indexes == map x | x in t.indexes && !Involves(t.indexes[x], name) :: t.indexes[x]
  {
    OnePg(t, DropCol(name), others);
    r := PgTable(t.columns - {name}, map x | x in t.indexes && !Involves(t.indexes[x], name) :: t.indexes[x]);
  }

  predicate TypeGoes(a: Shape, b: Shape) { a.sqlType == b.sqlType || Retypes(a, b.sqlType) }

  /** A new type leaves every index that involves the column something to read. */
  predicate Rereads(t: PgTable, name: string, a: Shape, b: Shape) {
    a.sqlType == b.sqlType || AllLegible(t.indexes, t.columns[name := a.(sqlType := b.sqlType)], name)
  }

  predicate NullGoes(a: Shape, b: Shape) { a.notNull == b.notNull || b.notNull || !a.key }

  predicate DefaultGoes(a: Shape, b: Shape, t: SqlType) { a.fallback == b.fallback || ReadsAs(b.fallback, t) }

  lemma SetsType(t: PgTable, name: string, a: Shape, b: Shape, others: set<string>)
    requires name in t.columns && t.columns[name] == a
    ensures RunPg(t, TypeStep(name, a, b), others) ==
            if TypeGoes(a, b) && Rereads(t, name, a, b) then Some(t.(columns := t.columns[name := a.(sqlType := b.sqlType)])) else None
  {
    OnePg(t, SetType(name, b.sqlType), others);
    assert t.columns == t.columns[name := a];
  }

  lemma SetsNull(t: PgTable, name: string, a: Shape, b: Shape, others: set<string>)
    requires name in t.columns && t.columns[name] == a
    ensures RunPg(t, NullStep(name, a, b), others) ==
            if NullGoes(a, b) then Some(t.(columns := t.columns[name := a.(notNull := b.notNull)])) else None
  {
    OnePg(t, SetNotNull(name, b.notNull), others);
    assert t.columns == t.columns[name := a];
  }

  lemma SetsDefault(t: PgTable, name: string, a: Shape, b: Shape, others: set<string>)
    requires name in t.columns && t.columns[name] == a
    ensures RunPg(t, DefaultStep(name, a, b), others) ==
            if DefaultGoes(a, b, a.sqlType) then Some(t.(columns := t.columns[name := a.(fallback := b.fallback)])) else None
  {
    OnePg(t, SetFallback(name, b.fallback), others);
    assert t.columns == t.columns[name := a];
  }

  /** What a caller can check of a changed column alone: it can be cast to the new type, its default too, and a key column stays NOT NULL. */
  predicate Alters(o: Shape, n: Shape) { TypeGoes(o, n) && NullGoes(o, n) }

  lemma AlterOne(t: PgTable, name: string, o: Shape, n: Shape, others: set<string>)
    requires name in t.columns && t.columns[name] == o && o.key == n.key && ReadsAs(n.fallback, n.sqlType)
    ensures RunPg(t, AlterSteps(name, o, n), others) == if Alters(o, n) && Rereads(t, name, o, n) then Some(t.(columns := t.columns[name := n])) else None
  {
    var o1, o2 := o.(sqlType := n.sqlType), o.(sqlType := n.sqlType, notNull := n.notNull);
    var t1, t2 := t.(columns := t.columns[name := o1]), t.(columns := t.columns[name := o2]);
    var a, b, c := TypeStep(name, o, n), NullStep(name, o, n), DefaultStep(name, o, n);
    assert AlterSteps(name, o, n) == a + (b + c) && b == NullStep(name, o1, n) && c == DefaultStep(name, o2, n);
    assert t1.columns[name := o2] == t2.columns && t2.columns[name := n] == t.columns[name := n];
    assert o2.(fallback := n.fallback) == n;
    hide TypeStep, NullStep, DefaultStep, AlterSteps, RunPg, AllLegible;
    PgJoined(t, a, b + c, others);
    PgJoined(t1, b, c, others);
    SetsType(t, name, o, n, others);
    SetsNull(t1, name, o1, n, others);
    SetsDefault(t2, name, o2, n, others);
  }

  /** The columns when the first n have been altered, those to drop gone and those to add there. */
  function ColumnsThen(before: Table, after: Table, renames: seq<Rename>, n: nat): map<string, Shape>
    requires n <= |after.columns|
  {
    map c | c in ShapeMap(after.columns) ::
      if OldShape(before.columns, renames, c).Some? && ShapeAmong(after.columns, n, c).None? then OldShape(before.columns, renames, c).value
      else ShapeMap(after.columns)[c]
  }

  /** The old indexes under the new column names, without those that involved a dropped column. */
  function Carried(before: Table, after: Table, renames: seq<Rename>): map<string, Index> {
    Spared(IndexesAfter(IndexMap(before.indexes), renames), before, after, renames, |before.columns|)
  }

  function Then(before: Table, after: Table, renames: seq<Rename>, n: nat): PgTable
    requires n <= |after.columns|
  {
    PgTable(ColumnsThen(before, after, renames, n), Carried(before, after, renames))
  }

  /** The i-th new column, if it has an old one, can be altered, and the old indexes still read. */
  predicate AltersAt(before: Table, after: Table, renames: seq<Rename>, i: nat)
    requires i < |after.columns|
  {
    var c, o := after.columns[i], OldShape(before.columns, renames, after.columns[i].name);
    o.Some? ==> Alters(o.value, ShapeOf(c)) && Rereads(Then(before, after, renames, i), c.name, o.value, ShapeOf(c))
  }

  /** A key column comes from one and stays one, and each default reads as its column's type. */
  ghost predicate SameKeys(before: Table, after: Table, renames: seq<Rename>) {
    forall i | 0 <= i < |after.columns| ::
      var o := OldShape(before.columns, renames, after.columns[i].name);
      (o.Some? ==> o.value.key == after.columns[i].pk) && ReadsAs(after.columns[i].def.fallback, after.columns[i].def.sqlType)
  }

  lemma ThenNext(before: Table, after: Table, renames: seq<Rename>, n: nat)
    requires 0 < n <= |after.columns| && DistinctColumns(after.columns)
    ensures var c, t := after.columns[n - 1], Then(before, after, renames, n - 1);
            && c.name in t.columns
            && (OldShape(before.columns, renames, c.name).Some? ==>
                  && t.columns[c.name] == OldShape(before.columns, renames, c.name).value
                  && Then(before, after, renames, n) == t.(columns := t.columns[c.name := ShapeOf(c)]))
            && (OldShape(before.columns, renames, c.name).None? ==> Then(before, after, renames, n) == t)
  {
    var c := after.columns[n - 1];
    ShapeMapHas(after.columns, n - 1);
    NotAmong(after.columns, n - 1);
    hide OldShape, ShapeMap, Carried;
    var t, next := Then(before, after, renames, n - 1), Then(before, after, renames, n);
    if OldShape(before.columns, renames, c.name).Some? {
      assert next.columns == t.columns[c.name := ShapeOf(c)];
    } else {
      assert next.columns == t.columns;
    }
  }

  lemma {:induction false} RunAlters(before: Table, after: Table, renames: seq<Rename>, n: nat, others: set<string>)
    requires n <= |after.columns| && DistinctColumns(after.columns) && SameKeys(before, after, renames)
    ensures RunPg(Then(before, after, renames, 0), AlterCols(before, after, renames, n), others) ==
            if forall i | 0 <= i < n :: AltersAt(before, after, renames, i) then Some(Then(before, after, renames, n)) else None
  {
    hide OldShape, RunPg, ExecutePg, AlterSteps, Alters, Rereads, Then;
    var t := Then(before, after, renames, 0);
    if n == 0 {
      NothingRun(t, others);
    } else {
      RunAlters(before, after, renames, n - 1, others);
      ThenNext(before, after, renames, n);
      var c, m := after.columns[n - 1], Then(before, after, renames, n - 1);
      var o := OldShape(before.columns, renames, c.name);
      assert (forall i | 0 <= i < n :: AltersAt(before, after, renames, i)) <==>
             (forall i | 0 <= i < n - 1 :: AltersAt(before, after, renames, i)) && AltersAt(before, after, renames, n - 1);
      if o.Some? {
        PgJoined(t, AlterCols(before, after, renames, n - 1), AlterSteps(c.name, o.value, ShapeOf(c)), others);
        AlterOne(m, c.name, o.value, ShapeOf(c), others);
      } else {
        assert AlterCols(before, after, renames, n) == AlterCols(before, after, renames, n - 1);
      }
    }
  }

  // ---- Index by index -----------------------------------------------------------------------

  function IndexAmong(xs: seq<Index>, n: nat, name: string): Option<Index>
    requires n <= |xs|
  {
    if n == 0 then None else if xs[n - 1].name == name then Some(xs[n - 1]) else IndexAmong(xs, n - 1, name)
  }

  lemma {:induction false} NoIndexAmong(xs: seq<Index>, n: nat, m: nat)
    requires DistinctIndexes(xs) && m <= n < |xs|
    ensures IndexAmong(xs, m, xs[n].name).None?
  {
    if m > 0 { NoIndexAmong(xs, n, m - 1); }
  }

  lemma {:induction false} IndexMapGet(xs: seq<Index>, n: nat, name: string)
    requires DistinctIndexes(xs) && n <= |xs|
    ensures Get(IndexMap(xs[..n]), name) == IndexAmong(xs, n, name)
  {
    if n > 0 {
      assert xs[..n][..n - 1] == xs[..n - 1] && xs[..n][n - 1] == xs[n - 1];
      IndexMapGet(xs, n - 1, name);
      IndexMapGet(xs, n - 1, xs[n - 1].name);
      NoIndexAmong(xs, n - 1, n - 1);
    }
  }

  lemma {:induction false} ShapeMapGet(columns: seq<Column>, n: nat, name: string)
    requires n <= |columns|
    ensures Get(ShapeMap(columns[..n]), name) == ShapeAmong(columns, n, name)
  {
    if n > 0 {
      assert columns[..n][..n - 1] == columns[..n - 1] && columns[..n][n - 1] == columns[n - 1];
      ShapeMapGet(columns, n - 1, name);
    }
  }

  predicate NamesFree(xs: seq<Index>, others: set<string>) { forall i | 0 <= i < |xs| :: xs[i].name !in others }

  lemma MakeOne(t: PgTable, x: Index, others: set<string>)
    requires x.name !in others
    ensures var made := if Fits(t, x) && Legible(x, t.columns) then Some(t.(indexes := t.indexes[x.name := x])) else None;
            && (x.name !in t.indexes ==> RunPg(t, [MakeIndex(x)], others) == made)
            && RunPg(t, [DropIndex(x.name), MakeIndex(x)], others) == made
  {
    hide Legible;
    var without := t.(indexes := t.indexes - {x.name});
    OnePg(t, MakeIndex(x), others);
    assert [DropIndex(x.name), MakeIndex(x)] == [DropIndex(x.name)] + [MakeIndex(x)];
    PgJoined(t, [DropIndex(x.name)], [MakeIndex(x)], others);
    OnePg(t, DropIndex(x.name), others);
    OnePg(without, MakeIndex(x), others);
    assert without.indexes[x.name := x] == t.indexes[x.name := x];
  }

  /** The i-th new index is an old one, or it reads as the new table types its columns. */
  predicate MakesAt(before: Table, after: Table, i: nat)
    requires i < |after.indexes|
  {
    Get(IndexMap(before.indexes), after.indexes[i].name) == Some(after.indexes[i]) || Legible(after.indexes[i], ShapeMap(after.columns))
  }

  lemma {:induction false} RunNewIndexes(t: PgTable, before: Table, after: Table, n: nat, others: set<string>) returns (r: Option<PgTable>)
    requires n <= |after.indexes| && DistinctIndexes(after.indexes) && NamesFree(after.indexes, others) && t.columns == ShapeMap(after.columns)
    requires forall i | 0 <= i < |after.indexes| :: Fits(t, after.indexes[i])
    requires forall x | x in t.indexes :: x in IndexMap(before.indexes)
    requires forall i | 0 <= i < |after.indexes| && Get(IndexMap(before.indexes), after.indexes[i].name) == Some(after.indexes[i]) ::
               Get(t.indexes, after.indexes[i].name) == Some(after.indexes[i])
    ensures RunPg(t, NewIndexes(before, after, n), others) == r && (r.Some? <==> forall i | 0 <= i < n :: MakesAt(before, after, i))
    ensures r.Some? ==> r.value.columns == t.columns
    ensures r.Some? ==>
              forall name :: Get(r.value.indexes, name) ==
                if IndexAmong(after.indexes, n, name).Some? then IndexAmong(after.indexes, n, name) else Get(t.indexes, name)
  {
    hide RunPg, ExecutePg, IndexMap, ShapeMap, Legible, Fits;
    if n == 0 {
      r := Some(t);
      NothingRun(t, others);
    } else {
      r := RunNewIndexes(t, before, after, n - 1, others);
      var x, olds := after.indexes[n - 1], IndexMap(before.indexes);
      NoIndexAmong(after.indexes, n - 1, n - 1);
      assert (forall i | 0 <= i < n :: MakesAt(before, after, i)) <==> (forall i | 0 <= i < n - 1 :: MakesAt(before, after, i)) && MakesAt(before, after, n - 1);
      if Get(olds, x.name) == Some(x) {
        assert NewIndexes(before, after, n) == NewIndexes(before, after, n - 1);
      } else {
        var steps := if x.name !in olds then [MakeIndex(x)] else [DropIndex(x.name), MakeIndex(x)];
        PgJoined(t, NewIndexes(before, after, n - 1), steps, others);
        if r.Some? {
          assert Get(r.value.indexes, x.name) == Get(t.indexes, x.name);
          SameColumnsFit(t, r.value, x);
          MakeOne(r.value, x, others);
          r := if Legible(x, t.columns) then Some(r.value.(indexes := r.value.indexes[x.name := x])) else None;
        }
      }
    }
  }

  lemma SameColumnsFit(t: PgTable, m: PgTable, x: Index)
    requires Fits(t, x) && m.columns == t.columns
    ensures Fits(m, x)
  {
  }

  lemma DropOneIndex(t: PgTable, name: string, others: set<string>) returns (r: PgTable)
    requires name !in others
    ensures RunPg(t, [DropIndex(name)], others) == Some(r) && r == t.(indexes := t.indexes - {name})
  {
    OnePg(t, DropIndex(name), others);
    r := t.(indexes := t.indexes - {name});
  }

  lemma {:induction false} RunOldIndexes(t: PgTable, before: Table, after: Table, n: nat, others: set<string>) returns (r: PgTable)
    requires n <= |before.indexes| && NamesFree(before.indexes, others)
    ensures RunPg(t, OldIndexes(before, after, n), others) == Some(r) && r.columns == t.columns
    ensures forall name :: Get(r.indexes, name) ==
              if IndexAmong(before.indexes, n, name).Some? && name !in IndexMap(after.indexes) then None else Get(t.indexes, name)
  {
    hide RunPg, ExecutePg, IndexMap;
    if n == 0 {
      r := t;
      NothingRun(t, others);
    } else {
      var m := RunOldIndexes(t, before, after, n - 1, others);
      var x := before.indexes[n - 1];
      r := m;
      if x.name !in IndexMap(after.indexes) {
        PgJoined(t, OldIndexes(before, after, n - 1), [DropIndex(x.name)], others);
        r := DropOneIndex(m, x.name, others);
      } else {
        assert OldIndexes(before, after, n) == OldIndexes(before, after, n - 1);
      }
    }
  }

  // ---- The replay ---------------------------------------------------------------------------

  ghost predicate PredicatesFormed(t: Table) {
    forall i, j | 0 <= i < |t.indexes| && 0 <= j < |t.indexes[i].where| && t.indexes[i].where[j].Name? ::
      t.indexes[i].where[j].name in ColumnNames(t.columns)
  }

  /** Each rename leads to a new column, and its old name is not used again. */
  ghost predicate NoReuse(after: Table, renames: seq<Rename>) {
    forall i | 0 <= i < |renames| :: renames[i].becomes in ColumnNames(after.columns) && renames[i].was !in ColumnNames(after.columns)
  }

  /** The key columns are the same ones on both sides, and each default reads as its column's type. */
  ghost predicate KeysKept(before: Table, after: Table, renames: seq<Rename>) {
    && SameKeys(before, after, renames) && AddsNoKey(before, after, renames)
    && forall i | 0 <= i < |before.columns| && !Declares(after.columns, Lookup(renames, before.columns[i].name)) :: !before.columns[i].pk
  }

  ghost predicate Replayable(before: Table, after: Table, renames: seq<Rename>, others: set<string>) {
    && WellFormed(before) && WellFormed(after) && PredicatesFormed(before) && PredicatesFormed(after)
    && DistinctIndexes(before.indexes) && DistinctIndexes(after.indexes)
    && NamesFree(before.indexes, others) && NamesFree(after.indexes, others)
    && Accepted(ColumnNames(before.columns), renames) && NoReuse(after, renames) && KeysKept(before, after, renames)
  }

  /** Every changed column can be altered in turn, and every new index made: what decides whether the up list succeeds. */
  predicate Alterable(before: Table, after: Table, renames: seq<Rename>) {
    (forall i | 0 <= i < |after.columns| :: AltersAt(before, after, renames, i)) && forall i | 0 <= i < |after.indexes| :: MakesAt(before, after, i)
  }

  lemma DeclaresIsNamed(columns: seq<Column>, name: string)
    ensures Declares(columns, name) <==> name in ColumnNames(columns)
  {
  }

  /** A column that is not renamed keeps its name; a renamed one has a new name, which the new table declares. */
  lemma {:induction false} LookupCases(after: Table, renames: seq<Rename>, c: string)
    requires NoReuse(after, renames)
    ensures Lookup(renames, c) == c || (Lookup(renames, c) in ColumnNames(after.columns) && c !in ColumnNames(after.columns))
    decreases |renames|
  {
    if renames != [] {
      forall i | 0 <= i < |renames[1..]| ensures renames[1..][i] == renames[i + 1] { }
      LookupCases(after, renames[1..], c);
    }
  }

  /** An old column goes exactly when it keeps its name and the new table lacks it. */
  lemma GoneIs(before: Table, after: Table, renames: seq<Rename>, c: string)
    requires NoReuse(after, renames)
    ensures Goes(before, after, renames, |before.columns|, c) <==>
            c in ColumnNames(before.columns) && Lookup(renames, c) == c && c !in ColumnNames(after.columns)
  {
    LookupCases(after, renames, c);
    DeclaresIsNamed(after.columns, Lookup(renames, c));
  }

  /** A dropped column stands under its own name, as the old table declares it. */
  lemma DroppedAreHeld(before: Table, after: Table, renames: seq<Rename>, i: nat)
    requires NoReuse(after, renames) && i < |before.columns| && !Declares(after.columns, Lookup(renames, before.columns[i].name))
    requires DistinctColumns(before.columns) && Accepted(ColumnNames(before.columns), renames)
    ensures OldShape(before.columns, renames, before.columns[i].name) == Some(ShapeOf(before.columns[i]))
  {
    var name := before.columns[i].name;
    LookupCases(after, renames, name);
    DeclaresIsNamed(after.columns, Lookup(renames, name));
    OldShapeFrom(before.columns, renames, name);
    var k :| 0 <= k < |before.columns| && Lookup(renames, before.columns[k].name) == name
             && OldShape(before.columns, renames, name).value == ShapeOf(before.columns[k]);
    LookupInjective(ColumnNames(before.columns), renames, name, before.columns[k].name);
  }

  /** From the old shape a name stood for, and what the new table declares, to what it holds in the end. */
  lemma FinalShape(before: Table, after: Table, renames: seq<Rename>, c: string)
    requires NoReuse(after, renames)
    ensures var o, d := OldShape(before.columns, renames, c), ShapeAmong(after.columns, |after.columns|, c);
            var gone := Goes(before, after, renames, |before.columns|, c);
            (o.None? ==> !gone) && (o.Some? && d.None? ==> gone) && (d.Some? ==> !gone)
  {
    GoneIs(before, after, renames, c);
    OldShapeFrom(before.columns, renames, c);
    DeclaredAmong(after.columns, |after.columns|, c);
    if OldShape(before.columns, renames, c).Some? {
      var i :| 0 <= i < |before.columns| && Lookup(renames, before.columns[i].name) == c;
      LookupCases(after, renames, before.columns[i].name);
      assert before.columns[i].name in ColumnNames(before.columns);
    }
    if c in ColumnNames(before.columns) {
      var i :| 0 <= i < |before.columns| && before.columns[i].name == c;
    }
  }

  lemma {:induction false} DeclaredAmong(columns: seq<Column>, n: nat, c: string)
    requires n <= |columns|
    ensures ShapeAmong(columns, n, c).Some? <==> exists i | 0 <= i < n :: columns[i].name == c
  {
    if n > 0 { DeclaredAmong(columns, n - 1, c); }
  }

  /** An index both tables declare alike involves no renamed column and no dropped one. */
  lemma SharedIndexIsQuiet(before: Table, after: Table, renames: seq<Rename>, x: Index, c: string)
    requires WellFormed(after) && PredicatesFormed(after) && NoReuse(after, renames) && x in after.indexes && Involves(x, c)
    ensures c in ColumnNames(after.columns)
    ensures !Goes(before, after, renames, |before.columns|, c) && forall i | 0 <= i < |renames| :: renames[i].was != c
  {
    var i :| 0 <= i < |after.indexes| && after.indexes[i] == x;
    if c in x.columns {
      var j :| 0 <= j < |x.columns| && x.columns[j] == c;
      assert after.indexes[i].columns[j] in ColumnNames(after.columns);
    } else {
      var j :| 0 <= j < |x.where| && x.where[j] == Name(c);
      assert after.indexes[i].where[j].name in ColumnNames(after.columns);
    }
    GoneIs(before, after, renames, c);
  }

  function ColumnSteps(before: Table, after: Table, renames: seq<Rename>): seq<Step> {
    RenameCols(renames) + AddCols(before, after, renames, |after.columns|) + DropCols(before, after, renames, |before.columns|)
    + AlterCols(before, after, renames, |after.columns|)
  }

  /** After the renames: the old shapes under their new names, and the indexes. */
  lemma Phase1(before: Table, after: Table, renames: seq<Rename>, others: set<string>) returns (r: PgTable)
    requires Replayable(before, after, renames, others)
    ensures RunPg(PgOf(before), RenameCols(renames), others) == Some(r) && r.indexes == IndexesAfter(IndexMap(before.indexes), renames)
    ensures forall c :: Get(r.columns, c) == OldShape(before.columns, renames, c)
  {
    ShapeMapKeys(before.columns);
    RunRenames(PgOf(before), renames, others);
    r := PgTable(RowAfter(ShapeMap(before.columns), renames), IndexesAfter(IndexMap(before.indexes), renames));
    forall c ensures Get(r.columns, c) == OldShape(before.columns, renames, c) { HeldAfterRenames(before, renames, c); }
  }

  lemma Phase2(before: Table, after: Table, renames: seq<Rename>, others: set<string>, r1: PgTable) returns (r: PgTable)
    requires Replayable(before, after, renames, others)
    requires forall c :: Get(r1.columns, c) == OldShape(before.columns, renames, c)
    ensures RunPg(r1, AddCols(before, after, renames, |after.columns|) + DropCols(before, after, renames, |before.columns|), others) == Some(r)
    ensures r.indexes == Spared(r1.indexes, before, after, renames, |before.columns|)
    ensures forall c :: Get(r.columns, c) ==
              if Goes(before, after, renames, |before.columns|, c) then None
              else if OldShape(before.columns, renames, c).Some? then OldShape(before.columns, renames, c)
              else ShapeAmong(after.columns, |after.columns|, c)
  {
    hide RunPg, OldShape, AddCols, DropCols, Goes, Involves, Spared;
    forall name ensures name in r1.columns <==> OldShape(before.columns, renames, name).Some? { assert Get(r1.columns, name).Some? <==> name in r1.columns; }
    var r2 := RunAdds(r1, before, after, renames, |after.columns|, others);
    forall i | 0 <= i < |before.columns| && !Declares(after.columns, Lookup(renames, before.columns[i].name))
      ensures before.columns[i].name in r2.columns && !r2.columns[before.columns[i].name].key
    {
      DroppedAreHeld(before, after, renames, i);
      assert Get(r2.columns, before.columns[i].name) == Some(ShapeOf(before.columns[i]));
    }
    r := RunDrops(r2, before, after, renames, |before.columns|, others);
    PgJoined(r1, AddCols(before, after, renames, |after.columns|), DropCols(before, after, renames, |before.columns|), others);
  }

  /** An index both tables declare alike comes through the renames and the drops. */
  lemma SharedIsCarried(before: Table, after: Table, renames: seq<Rename>, x: Index)
    requires WellFormed(after) && PredicatesFormed(after) && NoReuse(after, renames)
    requires x in after.indexes && Get(IndexMap(before.indexes), x.name) == Some(x)
    ensures Get(Carried(before, after, renames), x.name) == Some(x)
  {
    hide Involves, WellFormed, PredicatesFormed, Goes, IndexMap;
    forall i | 0 <= i < |renames| ensures !Involves(x, renames[i].was) {
      if Involves(x, renames[i].was) { SharedIndexIsQuiet(before, after, renames, x, renames[i].was); }
    }
    RenamesLeave(x, renames);
    forall i | 0 <= i < |before.columns| && Goes(before, after, renames, |before.columns|, before.columns[i].name) ensures !Involves(x, before.columns[i].name) {
      if Involves(x, before.columns[i].name) { SharedIndexIsQuiet(before, after, renames, x, before.columns[i].name); }
    }
  }

  /** Before the first alteration. */
  lemma StartsThen(before: Table, after: Table, renames: seq<Rename>, columns: map<string, Shape>)
    requires NoReuse(after, renames)
    requires forall c :: Get(columns, c) ==
               if Goes(before, after, renames, |before.columns|, c) then None
               else if OldShape(before.columns, renames, c).Some? then OldShape(before.columns, renames, c)
               else ShapeAmong(after.columns, |after.columns|, c)
    ensures columns == ColumnsThen(before, after, renames, 0)
  {
    assert after.columns[..|after.columns|] == after.columns;
    hide OldShape, Goes, ShapeMap, NoReuse;
    forall c: string ensures Get(columns, c) == Get(ColumnsThen(before, after, renames, 0), c) {
      FinalShape(before, after, renames, c);
      ShapeMapGet(after.columns, |after.columns|, c);
    }
    SameByGet(columns, ColumnsThen(before, after, renames, 0));
  }

  lemma EndsThen(before: Table, after: Table, renames: seq<Rename>)
    ensures ColumnsThen(before, after, renames, |after.columns|) == ShapeMap(after.columns)
  {
    assert after.columns[..|after.columns|] == after.columns;
    hide OldShape, ShapeMap;
    forall c | c in ShapeMap(after.columns) ensures ShapeAmong(after.columns, |after.columns|, c).Some? { ShapeMapGet(after.columns, |after.columns|, c); }
  }

  lemma ColumnsReplay(before: Table, after: Table, renames: seq<Rename>, others: set<string>)
    requires Replayable(before, after, renames, others)
    ensures RunPg(PgOf(before), ColumnSteps(before, after, renames), others) ==
            if forall i | 0 <= i < |after.columns| :: AltersAt(before, after, renames, i)
            then Some(PgTable(ShapeMap(after.columns), Carried(before, after, renames))) else None
  {
    hide RunPg, OldShape, AddCols, DropCols, AlterCols, RenameCols, Goes;
    hide Involves, IndexMap, ShapeMap, ShapeAmong, WellFormed, PredicatesFormed, Accepted;
    hide AltersAt, ColumnsThen, Spared, IndexesAfter;
    var a, b, c, d := RenameCols(renames), AddCols(before, after, renames, |after.columns|), DropCols(before, after, renames, |before.columns|),
                      AlterCols(before, after, renames, |after.columns|);
    var r1 := Phase1(before, after, renames, others);
    var r2 := Phase2(before, after, renames, others, r1);
    StartsThen(before, after, renames, r2.columns);
    NewIsDistinct(after);
    RunAlters(before, after, renames, |after.columns|, others);
    EndsThen(before, after, renames);
    assert ColumnSteps(before, after, renames) == a + ((b + c) + d);
    PgJoined(PgOf(before), a, (b + c) + d, others);
    PgJoined(r1, b + c, d, others);
  }

  lemma NewIsDistinct(t: Table)
    requires WellFormed(t)
    ensures DistinctColumns(t.columns)
  {
  }

  lemma IndexFits(after: Table, r: PgTable, i: nat)
    requires WellFormed(after) && PredicatesFormed(after) && i < |after.indexes| && r.columns == ShapeMap(after.columns)
    ensures Fits(r, after.indexes[i])
  {
    ShapeMapKeys(after.columns);
    forall j | 0 <= j < |after.indexes[i].columns| ensures after.indexes[i].columns[j] in ColumnNames(after.columns) { }
    forall j | 0 <= j < |after.indexes[i].where| && after.indexes[i].where[j].Name? ensures after.indexes[i].where[j].name in ColumnNames(after.columns) { }
    hide ColumnNames;
  }

  lemma SameByGet<V>(a: map<string, V>, b: map<string, V>)
    requires forall k: string :: Get(a, k) == Get(b, k)
    ensures a == b
  {
    forall k: string ensures k in a <==> k in b { assert Get(a, k) == Get(b, k); }
    forall k | k in a ensures a[k] == b[k] { assert Get(a, k) == Get(b, k); }
  }

  lemma IndexesReplay(before: Table, after: Table, renames: seq<Rename>, others: set<string>)
    requires Replayable(before, after, renames, others)
    ensures var t := PgTable(ShapeMap(after.columns), Carried(before, after, renames));
            RunPg(t, NewIndexes(before, after, |after.indexes|) + OldIndexes(before, after, |before.indexes|), others) ==
            if forall i | 0 <= i < |after.indexes| :: MakesAt(before, after, i) then Some(PgOf(after)) else None
  {
    var t := PgTable(ShapeMap(after.columns), Carried(before, after, renames));
    forall x | x in t.indexes ensures x in IndexMap(before.indexes) { }
    hide RunPg, NewIndexes, OldIndexes, IndexMap, IndexAmong, Fits, WellFormed, PredicatesFormed, ShapeMap, Carried, Accepted, KeysKept, MakesAt;
    forall i | 0 <= i < |after.indexes| ensures Fits(t, after.indexes[i]) { IndexFits(after, t, i); }
    forall i | 0 <= i < |after.indexes| && Get(IndexMap(before.indexes), after.indexes[i].name) == Some(after.indexes[i])
      ensures Get(t.indexes, after.indexes[i].name) == Some(after.indexes[i])
    {
      SharedIsCarried(before, after, renames, after.indexes[i]);
    }
    var m := RunNewIndexes(t, before, after, |after.indexes|, others);
    PgJoined(t, NewIndexes(before, after, |after.indexes|), OldIndexes(before, after, |before.indexes|), others);
    if m.Some? {
      var r := RunOldIndexes(m.value, before, after, |before.indexes|, others);
      assert after.indexes[..|after.indexes|] == after.indexes && before.indexes[..|before.indexes|] == before.indexes;
      forall name ensures Get(r.indexes, name) == Get(IndexMap(after.indexes), name) {
        IndexMapGet(after.indexes, |after.indexes|, name);
        IndexMapGet(before.indexes, |before.indexes|, name);
        assert name in IndexMap(after.indexes) <==> Get(IndexMap(after.indexes), name).Some?;
        assert Get(t.indexes, name).Some? ==> Get(IndexMap(before.indexes), name).Some?;
      }
      SameByGet(r.indexes, IndexMap(after.indexes));
    }
  }

  /**
   * Replaying the up list on the old table succeeds exactly when every changed column can be altered in turn, its default and the
   * old indexes with it, and every new index made, and then gives exactly the new table: columns, their definitions and keys,
   * and indexes.
   */
  lemma UpReplays(before: Table, after: Table, renames: seq<Rename>, others: set<string>)
    requires Replayable(before, after, renames, others)
    ensures RunPg(PgOf(before), UpList(before, after, renames), others) ==
            if Alterable(before, after, renames) then Some(PgOf(after)) else None
  {
    hide RunPg, ColumnSteps, NewIndexes, OldIndexes, PgOf, WellFormed, PredicatesFormed, Accepted, AltersAt, MakesAt, KeysKept, Carried;
    ColumnsReplay(before, after, renames, others);
    UpListIs(before, after, renames);
    PgJoined(PgOf(before), ColumnSteps(before, after, renames),
             NewIndexes(before, after, |after.indexes|) + OldIndexes(before, after, |before.indexes|), others);
    IndexesReplay(before, after, renames, others);
  }

  /** A text default stays behind the new type: the type comes first, so the statement fails even on an empty table. */
  lemma DefaultBlocksType()
    ensures var text, number := SqlType("text", false, {"text"}, {"text"}, {0, 1}, {}), SqlType("integer", false, {"text"}, {"integer"}, {0}, {});
            var before := Table("t", [Column("c", false, Def(text, false, Known(0), [], NoReference), "")], [], []);
            var after := Table("t", [Column("c", false, Def(number, false, Known(0), [], NoReference), "")], [], []);
            Replayable(before, after, [], {}) && RunPg(PgOf(before), UpList(before, after, []), {}) == None
  {
    var text, number := SqlType("text", false, {"text"}, {"text"}, {0, 1}, {}), SqlType("integer", false, {"text"}, {"integer"}, {0}, {});
    var before := Table("t", [Column("c", false, Def(text, false, Known(0), [], NoReference), "")], [], []);
    var after := Table("t", [Column("c", false, Def(number, false, Known(0), [], NoReference), "")], [], []);
    var o := OldShape(before.columns, [], "c");
    assert Lookup([], "c") == "c" && o == Some(ShapeOf(before.columns[0]));
    assert !AltersAt(before, after, [], 0);
    UpReplays(before, after, [], {});
  }

  /** A key column's type text is no type to change to: the statement the diff warns about fails whatever the table holds. */
  lemma KeyTypeBlocksType()
    ensures var serial, uuid := SqlType("BIGSERIAL PRIMARY KEY", true, {"bigint"}, {"bigint"}, {}, {}), SqlType("uuid PRIMARY KEY", true, {"uuid"}, {"uuid"}, {}, {});
            var before := Table("t", [Column("id", true, Def(serial, true, Null, [], NoReference), "")], [], []);
            var after := Table("t", [Column("id", true, Def(uuid, true, Null, [], NoReference), "")], [], []);
            Replayable(before, after, [], {}) && RunPg(PgOf(before), UpList(before, after, []), {}) == None
  {
    var serial, uuid := SqlType("BIGSERIAL PRIMARY KEY", true, {"bigint"}, {"bigint"}, {}, {}), SqlType("uuid PRIMARY KEY", true, {"uuid"}, {"uuid"}, {}, {});
    var before := Table("t", [Column("id", true, Def(serial, true, Null, [], NoReference), "")], [], []);
    var after := Table("t", [Column("id", true, Def(uuid, true, Null, [], NoReference), "")], [], []);
    assert Lookup([], "id") == "id" && OldShape(before.columns, [], "id") == Some(ShapeOf(before.columns[0]));
    assert !AltersAt(before, after, [], 0);
    UpReplays(before, after, [], {});
  }

  /** With nothing renamed or dropped the old indexes are all there. */
  lemma CarriedAll(before: Table, after: Table)
    requires ColumnNames(before.columns) <= ColumnNames(after.columns)
    ensures Carried(before, after, []) == IndexMap(before.indexes)
  {
    forall i | 0 <= i < |before.columns| ensures !Goes(before, after, [], |before.columns|, before.columns[i].name) {
      assert before.columns[i].name in ColumnNames(before.columns) && Lookup([], before.columns[i].name) == before.columns[i].name;
      DeclaresIsNamed(after.columns, before.columns[i].name);
    }
    hide Goes;
    assert IndexesAfter(IndexMap(before.indexes), []) == IndexMap(before.indexes);
  }

  const UNLIKE_EMPTY := [Name("c"), Text("<> ''")]
  const UNLIKE_ZERO := [Name("c"), Text("<> 0")]

  const STRINGS := SqlType("text", false, {"integer"}, {"text"}, {}, {Misread(["c"], UNLIKE_ZERO, map["c" := "text"])})
  const NUMBERS := SqlType("integer", false, {"text"}, {"integer"}, {}, {Misread(["c"], UNLIKE_EMPTY, map["c" := "integer"])})

  function Typed(t: SqlType): Column { Column("c", false, Def(t, false, Null, [], NoReference), "") }

  const OF_STRINGS := Table("t", [Typed(STRINGS)], [Index("i", ["c"], false, UNLIKE_EMPTY)], [])
  const OF_NUMBERS := Table("t", [Typed(NUMBERS)], [Index("i", ["c"], false, UNLIKE_ZERO)], [])

  /**
   * A partial index that compares a text column with '' stays behind the new type, though the new table has it changed: the type
   * comes before the DROP INDEX. Each index reads in its own table.
   */
  lemma PredicateBlocksType()
    ensures Legible(OF_STRINGS.indexes[0], ShapeMap(OF_STRINGS.columns)) && Legible(OF_NUMBERS.indexes[0], ShapeMap(OF_NUMBERS.columns))
    ensures Replayable(OF_STRINGS, OF_NUMBERS, [], {}) && RunPg(PgOf(OF_STRINGS), UpList(OF_STRINGS, OF_NUMBERS, []), {}) == None
  {
    var before, after := OF_STRINGS, OF_NUMBERS;
    TypesOfOne(STRINGS);
    TypesOfOne(NUMBERS);
    StringsReplayable();
    hide Replayable, UpList, RunPg;
    CarriedAll(before, after);
    var x := before.indexes[0];
    assert before.indexes[..0] == [] && IndexMap(before.indexes) == map["i" := x];
    var start := Then(before, after, [], 0);
    assert Lookup([], "c") == "c" && OldShape(before.columns, [], "c") == Some(ShapeOf(before.columns[0]));
    var columns := start.columns["c" := ShapeOf(before.columns[0]).(sqlType := NUMBERS)];
    assert ShapeMap(after.columns).Keys == {"c"};
    MisreadsNumbers(columns);
    assert start.indexes["i"] == x && Involves(x, "c");
    assert !AltersAt(before, after, [], 0);
    UpReplays(before, after, [], {});
  }

  lemma TypesOfOne(t: SqlType)
    ensures ShapeMap([Typed(t)]) == map["c" := ShapeOf(Typed(t))]
    ensures Legible(OF_STRINGS.indexes[0], map["c" := ShapeOf(Typed(STRINGS))]) && Legible(OF_NUMBERS.indexes[0], map["c" := ShapeOf(Typed(NUMBERS))])
  {
    assert [Typed(t)][..0] == [];
    assert UNLIKE_EMPTY[1] != UNLIKE_ZERO[1];
  }

  lemma MisreadsNumbers(columns: map<string, Shape>)
    requires columns.Keys == {"c"} && columns["c"].sqlType == NUMBERS
    ensures !Legible(OF_STRINGS.indexes[0], columns)
  {
    var x := OF_STRINGS.indexes[0];
    assert Involves(x, "c");
    assert (map c | c in columns && Involves(x, c) :: columns[c].sqlType.name) == map["c" := "integer"];
  }

  lemma StringsReplayable()
    ensures Replayable(OF_STRINGS, OF_NUMBERS, [], {})
  {
    hide Legible;
    assert OF_STRINGS.columns[0].name == "c" && OF_NUMBERS.columns[0].name == "c";
    assert Lookup([], "c") == "c" && OldShape(OF_STRINGS.columns, [], "c") == Some(ShapeOf(OF_STRINGS.columns[0]));
    assert UNLIKE_EMPTY[0] == Name("c") && UNLIKE_ZERO[0] == Name("c");
  }

  lemma UpListIs(before: Table, after: Table, renames: seq<Rename>)
    ensures UpList(before, after, renames) ==
            ColumnSteps(before, after, renames) + (NewIndexes(before, after, |after.indexes|) + OldIndexes(before, after, |before.indexes|))
  {
  }
}
