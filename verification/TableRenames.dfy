/**
 * Columns renamed in a live table: what the rename statements of a migration and their undoing do to its shape, its rows, its
 * indexes and the foreign keys of every table.
 */
module TableRenames {
  import opened Options
  import opened Schema
  import opened Sqlite
  import opened Renames
  import opened Rebuild
  import opened TableDiff

  // ---- Column names -------------------------------------------------------------------------

  /** The column names after the renames. */
  function Moved(names: set<string>, renames: seq<Rename>): set<string>
    decreases |renames|
  {
    if renames == [] then names else Moved(names - {renames[0].was} + {renames[0].becomes}, renames[1..])
  }

  lemma {:induction false} MovedIs(names: set<string>, renames: seq<Rename>, c: string)
    requires Accepted(names, renames)
    ensures c in Moved(names, renames) <==> (c in names && !Claimed(renames, c)) || exists j | 0 <= j < |renames| :: renames[j].becomes == c
    decreases |renames|
  {
    if renames != [] {
      var rest, first := renames[1..], renames[0];
      AcceptedRest(names, renames);
      MovedIs(names - {first.was} + {first.becomes}, rest, c);
      assert Claimed(renames, c) <==> first.was == c || Claimed(rest, c) by { assert renames == [first] + rest; }
      assert (exists j | 0 <= j < |renames| :: renames[j].becomes == c) <==> first.becomes == c || exists j | 0 <= j < |rest| :: rest[j].becomes == c by {
        assert renames == [first] + rest;
      }
    }
  }

  lemma RenamedNames(columns: seq<Held>, a: string, b: string)
    requires a in Names(columns) && b !in Names(columns)
    ensures Names(RenamedHeld(columns, a, b)) == Names(columns) - {a} + {b}
  {
    var after := RenamedHeld(columns, a, b);
    forall c | c in Names(columns) - {a} + {b} ensures c in Names(after) {
      var i :| 0 <= i < |columns| && columns[i].name == if c == b then a else c;
      assert after[i].name == c;
    }
    forall c | c in Names(after) ensures c in Names(columns) - {a} + {b} {
      var i :| 0 <= i < |after| && after[i].name == c;
      assert columns[i].name in Names(columns);
    }
  }

  lemma SameNames(columns: seq<Held>, follow: Reference -> Reference)
    ensures Names(Redirected(columns, follow)) == Names(columns)
  {
    var r := Redirected(columns, follow);
    forall c | c in Names(columns) ensures c in Names(r) {
      var i :| 0 <= i < |columns| && columns[i].name == c;
      assert r[i].name == c;
    }
    forall c | c in Names(r) ensures c in Names(columns) {
      var i :| 0 <= i < |r| && r[i].name == c;
      assert columns[i].name == c;
    }
  }

  lemma {:induction false} OnlyNames(columns: seq<Column>, pk: bool, name: string)
    ensures HasName(Only(columns, pk), name) <==> exists i | 0 <= i < |columns| :: columns[i].name == name && columns[i].pk == pk
    decreases |columns|
  {
    if columns != [] {
      OnlyNames(columns[1..], pk, name);
      var rest := Only(columns[1..], pk);
      var first := if columns[0].pk == pk then [HeldOf(columns[0])] else [];
      HasEither(first, rest, name);
      if i :| 0 <= i < |columns[1..]| && columns[1..][i].name == name && columns[1..][i].pk == pk { assert columns[i + 1].name == name; }
      if i :| 0 <= i < |columns| && columns[i].name == name && columns[i].pk == pk {
        if i > 0 { assert columns[1..][i - 1] == columns[i]; } else { assert first[0].name == name; }
      }
    }
  }

  lemma HasEither(a: seq<Held>, b: seq<Held>, name: string)
    ensures HasName(a + b, name) <==> HasName(a, name) || HasName(b, name)
  {
    if i :| 0 <= i < |a| && a[i].name == name { assert (a + b)[i].name == name; }
    if i :| 0 <= i < |b| && b[i].name == name { assert (a + b)[|a| + i].name == name; }
  }

  lemma LayoutNames(columns: seq<Column>, name: string)
    ensures name in Names(Layout(columns)) <==> name in ColumnNames(columns)
    ensures Declares(columns, name) <==> name in ColumnNames(columns)
  {
    OnlyNames(columns, true, name);
    OnlyNames(columns, false, name);
    HasEither(Only(columns, true), Only(columns, false), name);
    assert name in Names(Layout(columns)) <==> HasName(Layout(columns), name);
  }

  lemma LayoutIs(columns: seq<Column>)
    ensures Names(Layout(columns)) == ColumnNames(columns)
  {
    forall c ensures c in Names(Layout(columns)) <==> c in ColumnNames(columns) { LayoutNames(columns, c); }
  }

  lemma {:induction false} OnlyHas(columns: seq<Column>, pk: bool, h: Held)
    requires h in Only(columns, pk)
    ensures exists i | 0 <= i < |columns| :: h == HeldOf(columns[i])
    decreases |columns|
  {
    if columns != [] {
      if columns[0].pk == pk && h == HeldOf(columns[0]) {
      } else {
        OnlyHas(columns[1..], pk, h);
        var i :| 0 <= i < |columns[1..]| && h == HeldOf(columns[1..][i]);
        assert h == HeldOf(columns[i + 1]);
      }
    }
  }

  lemma LayoutHas(columns: seq<Column>, h: Held)
    requires h in Layout(columns)
    ensures exists i | 0 <= i < |columns| :: h == HeldOf(columns[i])
  {
    if h in Only(columns, true) { OnlyHas(columns, true, h); } else { OnlyHas(columns, false, h); }
  }

  lemma {:induction false} HasOnly(columns: seq<Column>, i: nat)
    requires i < |columns|
    ensures HeldOf(columns[i]) in Only(columns, columns[i].pk)
    decreases |columns|
  {
    if i > 0 { HasOnly(columns[1..], i - 1); }
  }

  lemma HasLayout(columns: seq<Column>, i: nat)
    requires i < |columns|
    ensures HeldOf(columns[i]) in Layout(columns)
  {
    HasOnly(columns, i);
  }

  // ---- Relabelled shapes --------------------------------------------------------------------

  lemma RelabelBack(t: Table, a: string, b: string)
    requires WellFormed(t) && b !in ColumnNames(t.columns)
    ensures RelabelOne(RelabelOne(t, a, b), b, a) == t
  {
    var back := RelabelOne(RelabelOne(t, a, b), b, a);
    forall i | 0 <= i < |t.columns| ensures back.columns[i] == t.columns[i] { assert t.columns[i].name in ColumnNames(t.columns); }
    forall i | 0 <= i < |t.indexes| ensures back.indexes[i] == t.indexes[i] {
      assert back.indexes[i].columns == t.indexes[i].columns;
    }
    assert back.primaryKey == t.primaryKey;
  }

  lemma RelabelledNames(cs: seq<Column>, ds: seq<Column>, a: string, b: string)
    requires |ds| == |cs| && forall i | 0 <= i < |cs| :: ds[i] == RelabelColumn(cs[i], a, b)
    requires a in ColumnNames(cs) && b !in ColumnNames(cs)
    ensures ColumnNames(ds) == ColumnNames(cs) - {a} + {b}
    ensures forall c | c in ColumnNames(cs) :: Renamed(c, a, b) in ColumnNames(ds)
  {
    forall c | c in ColumnNames(cs) ensures Renamed(c, a, b) in ColumnNames(ds) {
      var i :| 0 <= i < |cs| && cs[i].name == c;
      assert ds[i].name == Renamed(c, a, b);
    }
    assert Renamed(a, a, b) == b;
    forall c | c in ColumnNames(ds) ensures c in ColumnNames(cs) - {a} + {b} {
      var i :| 0 <= i < |ds| && ds[i].name == c;
      assert cs[i].name in ColumnNames(cs);
    }
    forall c | c in ColumnNames(cs) - {a} ensures c in ColumnNames(ds) { assert Renamed(c, a, b) == c; }
  }

  lemma RelabelledDistinct(cs: seq<Column>, ds: seq<Column>, a: string, b: string)
    requires |ds| == |cs| && forall i | 0 <= i < |cs| :: ds[i] == RelabelColumn(cs[i], a, b)
    requires DistinctColumns(cs) && b !in ColumnNames(cs)
    ensures DistinctColumns(ds)
  {
    forall i | 0 <= i < |cs| ensures cs[i].name != b { assert cs[i].name in ColumnNames(cs); }
  }

  lemma RelabelWellFormed(t: Table, a: string, b: string)
    requires WellFormed(t) && a in ColumnNames(t.columns) && b !in ColumnNames(t.columns)
    ensures WellFormed(RelabelOne(t, a, b)) && ColumnNames(RelabelOne(t, a, b).columns) == ColumnNames(t.columns) - {a} + {b}
  {
    var r := RelabelOne(t, a, b);
    RelabelledNames(t.columns, r.columns, a, b);
    RelabelledDistinct(t.columns, r.columns, a, b);
    hide ColumnNames, DistinctColumns;
    forall i, j | 0 <= i < |r.indexes| && 0 <= j < |r.indexes[i].columns| ensures r.indexes[i].columns[j] in ColumnNames(r.columns) {
      assert r.indexes[i].columns[j] == Renamed(t.indexes[i].columns[j], a, b);
    }
  }

  lemma {:induction false} RelabelAllKeeps(t: Table, renames: seq<Rename>)
    ensures RelabelAll(t, renames).name == t.name && |RelabelAll(t, renames).indexes| == |t.indexes|
    ensures forall i | 0 <= i < |t.indexes| :: RelabelAll(t, renames).indexes[i].name == t.indexes[i].name
    decreases |renames|
  {
    if renames != [] { RelabelAllKeeps(RelabelOne(t, renames[0].was, renames[0].becomes), renames[1..]); }
  }

  lemma {:induction false} RelabelAllNames(t: Table, renames: seq<Rename>)
    requires WellFormed(t) && Accepted(ColumnNames(t.columns), renames)
    ensures ColumnNames(RelabelAll(t, renames).columns) == Moved(ColumnNames(t.columns), renames)
    ensures WellFormed(RelabelAll(t, renames))
    decreases |renames|
  {
    if renames != [] {
      RelabelWellFormed(t, renames[0].was, renames[0].becomes);
      AcceptedRest(ColumnNames(t.columns), renames);
      hide WellFormed, RelabelOne, ColumnNames, Accepted;
      RelabelAllNames(RelabelOne(t, renames[0].was, renames[0].becomes), renames[1..]);
    }
  }

  // ---- Renaming a live table ----------------------------------------------------------------

  /** No index predicate and no check names the column. */
  ghost predicate Unnamed(t: Table, name: string) {
    && (forall i | 0 <= i < |t.indexes| :: !Mentions(t.indexes[i].where, name))
    && (forall i | 0 <= i < |t.columns| :: !Mentions(t.columns[i].def.check, name))
  }

  /** No index predicate and no check names a column of the renames, old or new. */
  ghost predicate Quiet(t: Table, renames: seq<Rename>) {
    forall j | 0 <= j < |renames| :: Unnamed(t, renames[j].was) && Unnamed(t, renames[j].becomes)
  }

  function RenamedRows(rows: seq<Row>, a: string, b: string): (r: seq<Row>)
    ensures |r| == |rows| && forall i | 0 <= i < |rows| :: r[i] == RenamedRow(rows[i], a, b)
  {
    seq(|rows|, i requires 0 <= i < |rows| => RenamedRow(rows[i], a, b))
  }

  function RowsAfter(rows: seq<Row>, renames: seq<Rename>): seq<Row>
    decreases |renames|
  {
    if renames == [] then rows else RowsAfter(RenamedRows(rows, renames[0].was, renames[0].becomes), renames[1..])
  }

  function RowsBack(rows: seq<Row>, renames: seq<Rename>): seq<Row>
    decreases |renames|
  {
    if renames == [] then rows else RenamedRows(RowsBack(rows, renames[1..]), renames[0].becomes, renames[0].was)
  }

  lemma Unrenamed(where: seq<Token>, a: string, b: string)
    requires !Mentions(where, a)
    ensures RenamedWhere(where, a, b) == where
  {
    forall j | 0 <= j < |where| ensures where[j] != Name(a) { assert !Mentions(where, a); }
  }

  lemma {:induction false} OnlyRelabelled(columns: seq<Column>, relabelled: seq<Column>, pk: bool, a: string, b: string)
    requires |relabelled| == |columns| && forall i | 0 <= i < |columns| :: relabelled[i] == RelabelColumn(columns[i], a, b)
    requires forall i | 0 <= i < |columns| :: !Mentions(columns[i].def.check, a)
    ensures Only(relabelled, pk) == RenamedHeld(Only(columns, pk), a, b)
    decreases |columns|
  {
    hide Mentions;
    if columns != [] {
      forall i | 0 <= i < |columns[1..]| ensures relabelled[1..][i] == RelabelColumn(columns[1..][i], a, b) && !Mentions(columns[1..][i].def.check, a) {
        assert relabelled[1..][i] == relabelled[i + 1] && columns[1..][i] == columns[i + 1];
      }
      OnlyRelabelled(columns[1..], relabelled[1..], pk, a, b);
      Unrenamed(columns[0].def.check, a, b);
      assert columns[0].def.(check := columns[0].def.check) == columns[0].def;
    }
  }

  lemma {:induction false} IndexMapRelabelled(xs: seq<Index>, ys: seq<Index>, a: string, b: string)
    requires |xs| == |ys| && forall i | 0 <= i < |xs| :: ys[i] == RenamedIndex(xs[i], a, b)
    ensures IndexMap(ys) == map x | x in IndexMap(xs) :: RenamedIndex(IndexMap(xs)[x], a, b)
    decreases |xs|
  {
    if xs != [] {
      IndexMapRelabelled(xs[..|xs| - 1], ys[..|ys| - 1], a, b);
    }
  }

  /** Renaming a column of a live table is relabelling its shape, when no predicate and no check names the column. */
  lemma RenameIsRelabel(t: Table, rows: seq<Row>, a: string, b: string)
    requires Unnamed(t, a)
    ensures RenamedLive(LiveOf(t, rows), a, b) == LiveOf(RelabelOne(t, a, b), RenamedRows(rows, a, b))
  {
    var r := RelabelOne(t, a, b);
    hide Mentions;
    OnlyRelabelled(t.columns, r.columns, true, a, b);
    OnlyRelabelled(t.columns, r.columns, false, a, b);
    assert RenamedHeld(Layout(t.columns), a, b) == Layout(r.columns);
    forall i | 0 <= i < |t.indexes| ensures r.indexes[i] == RenamedIndex(t.indexes[i], a, b) { Unrenamed(t.indexes[i].where, a, b); }
    IndexMapRelabelled(t.indexes, r.indexes, a, b);
  }

  // ---- References following the renames -----------------------------------------------------

  /** The references of a database after the columns of a table were renamed. */
  function KeysAfter(db: Db, name: string, renames: seq<Rename>): Db
    decreases |renames|
  {
    if renames == [] then db else KeysAfter(Following(db, ToColumn(name, renames[0].was, renames[0].becomes)), name, renames[1..])
  }

  /** And after that was undone. */
  function KeysBack(db: Db, name: string, renames: seq<Rename>): Db
    decreases |renames|
  {
    if renames == [] then db else Following(KeysBack(db, name, renames[1..]), ToColumn(name, renames[0].becomes, renames[0].was))
  }

  predicate PointsTo(h: Held, name: string, c: string) {
    h.def.references.Reference? && h.def.references.table == name && h.def.references.column == c
  }

  /** Every foreign key to the table names one of its columns. */
  ghost predicate KeysAmongNames(db: Db, name: string, names: set<string>) {
    forall x, h | x in db && h in db[x].columns && h.def.references.Reference? && h.def.references.table == name :: h.def.references.column in names
  }

  lemma {:induction false} KeysThere(db: Db, name: string, renames: seq<Rename>)
    ensures KeysBack(db, name, renames).Keys == db.Keys
    ensures forall x | x in db :: var t := KeysBack(db, name, renames)[x]; t == db[x].(columns := t.columns)
    decreases |renames|
  {
    if renames != [] { KeysThere(db, name, renames[1..]); }
  }

  lemma FollowedBack(db: Db, name: string, a: string, b: string)
    requires forall x, h | x in db && h in db[x].columns :: !PointsTo(h, name, b)
    ensures Following(Following(db, ToColumn(name, a, b)), ToColumn(name, b, a)) == db
  {
    var there, back := Following(db, ToColumn(name, a, b)), Following(Following(db, ToColumn(name, a, b)), ToColumn(name, b, a));
    forall x | x in db ensures back[x].columns == db[x].columns {
      forall i | 0 <= i < |db[x].columns| ensures back[x].columns[i] == db[x].columns[i] {
        var h := db[x].columns[i];
        assert h in db[x].columns && !PointsTo(h, name, b);
        assert there[x].columns[i] == Redirect(h, ToColumn(name, a, b));
      }
    }
  }

  lemma KeysAmongNext(db: Db, name: string, names: set<string>, a: string, b: string)
    requires KeysAmongNames(db, name, names)
    ensures KeysAmongNames(Following(db, ToColumn(name, a, b)), name, names - {a} + {b})
  {
    var next := Following(db, ToColumn(name, a, b));
    forall x, h | x in next && h in next[x].columns && h.def.references.Reference? && h.def.references.table == name
      ensures h.def.references.column in names - {a} + {b}
    {
      var i :| 0 <= i < |next[x].columns| && next[x].columns[i] == h;
      assert db[x].columns[i] in db[x].columns && h == Redirect(db[x].columns[i], ToColumn(name, a, b));
    }
  }

  /** References that follow accepted renames follow them back. */
  lemma {:induction false} KeysRoundTrip(db: Db, name: string, names: set<string>, renames: seq<Rename>)
    requires Accepted(names, renames) && KeysAmongNames(db, name, names)
    ensures KeysBack(KeysAfter(db, name, renames), name, renames) == db
    decreases |renames|
  {
    if renames != [] {
      var a, b := renames[0].was, renames[0].becomes;
      AcceptedRest(names, renames);
      KeysAmongNext(db, name, names, a, b);
      assert b !in names;
      FollowedBack(db, name, a, b);
      hide Accepted, Following, KeysAmongNames;
      KeysRoundTrip(Following(db, ToColumn(name, a, b)), name, names - {a} + {b}, renames[1..]);
    }
  }

  lemma {:induction false} KeysAfterKeeps(db: Db, name: string, renames: seq<Rename>)
    ensures KeysAfter(db, name, renames).Keys == db.Keys
    ensures forall x | x in db :: var t := KeysAfter(db, name, renames)[x]; t == db[x].(columns := t.columns)
    ensures forall x, h | x in db && h in KeysAfter(db, name, renames)[x].columns && h.def.references.Reference? ::
              exists k :: k in db[x].columns && k.def.references.Reference? && k.def.references.table == h.def.references.table
    decreases |renames|
  {
    if renames != [] {
      var next := Following(db, ToColumn(name, renames[0].was, renames[0].becomes));
      KeysAfterKeeps(next, name, renames[1..]);
      FollowingKeeps(db, name, renames[0].was, renames[0].becomes);
      hide Following;
    }
  }

  lemma FollowingKeeps(db: Db, name: string, a: string, b: string)
    ensures var next := Following(db, ToColumn(name, a, b));
            && next.Keys == db.Keys && (forall x | x in db :: next[x] == db[x].(columns := next[x].columns))
            && forall x, h | x in db && h in next[x].columns && h.def.references.Reference? ::
                 exists k :: k in db[x].columns && k.def.references.Reference? && k.def.references.table == h.def.references.table
  {
    var next := Following(db, ToColumn(name, a, b));
    forall x, h | x in db && h in next[x].columns && h.def.references.Reference?
      ensures exists k :: k in db[x].columns && k.def.references.Reference? && k.def.references.table == h.def.references.table
    {
      var i :| 0 <= i < |next[x].columns| && next[x].columns[i] == h;
      assert db[x].columns[i] in db[x].columns;
    }
  }

  lemma FollowingBut(db: Db, name: string, live: Live, follow: Reference -> Reference)
    ensures Following(db[name := live], follow) - {name} == Following(db - {name}, follow)
  {
  }

  // ---- The renames run ----------------------------------------------------------------------

  function RenamedDb(db: Db, name: string, renames: seq<Rename>): Db
    requires name in db
    decreases |renames|
  {
    if renames == [] then db
    else
      var a, b := renames[0].was, renames[0].becomes;
      RenamedDb(Following(db[name := RenamedLive(db[name], a, b)], ToColumn(name, a, b)), name, renames[1..])
  }

  lemma RenameStep(sql: Reading, db: Db, name: string, a: string, b: string, rest: seq<Statement>)
    requires name in db && a in Names(db[name].columns) && b !in Names(db[name].columns)
    ensures var next := Following(db[name := RenamedLive(db[name], a, b)], ToColumn(name, a, b));
            && name in next && Run(sql, db, [RenameColumn(name, a, b)] + rest) == Run(sql, next, rest)
            && next[name].rows == RenamedRows(db[name].rows, a, b) && Names(next[name].columns) == Names(db[name].columns) - {a} + {b}
            && next - {name} == Following(db - {name}, ToColumn(name, a, b))
  {
    var live := RenamedLive(db[name], a, b);
    StepThen(sql, db, RenameColumn(name, a, b), rest);
    RenamedNames(db[name].columns, a, b);
    SameNames(live.columns, ToColumn(name, a, b));
    FollowingBut(db, name, live, ToColumn(name, a, b));
    hide Run, Names;
  }

  /** Accepted renames never fail; they carry the rows along, and the foreign keys of the other tables. */
  lemma {:induction false} RenamesRun(sql: Reading, db: Db, name: string, renames: seq<Rename>)
    requires name in db && Accepted(Names(db[name].columns), renames)
    ensures var r := RenamedDb(db, name, renames);
            && Run(sql, db, RenameSteps(name, renames)) == Some(r) && name in r
            && r[name].rows == RowsAfter(db[name].rows, renames) && Names(r[name].columns) == Moved(Names(db[name].columns), renames)
            && r - {name} == KeysAfter(db - {name}, name, renames)
    decreases |renames|
  {
    if renames != [] {
      var a, b := renames[0].was, renames[0].becomes;
      AcceptedRest(Names(db[name].columns), renames);
      assert a in Names(db[name].columns) && b !in Names(db[name].columns);
      hide Accepted, Names, Following, Run, RenamedLive;
      RenameStep(sql, db, name, a, b, RenameSteps(name, renames[1..]));
      RenamesRun(sql, Following(db[name := RenamedLive(db[name], a, b)], ToColumn(name, a, b)), name, renames[1..]);
    }
  }

  /** Whatever references a table comes from something that did. */
  ghost predicate SameTargets(olds: seq<Held>, news: seq<Held>) {
    forall h | h in news && h.def.references.Reference? ::
      exists k :: k in olds && k.def.references.Reference? && k.def.references.table == h.def.references.table
  }

  lemma SameTargetsStep(db: Db, name: string, a: string, b: string, x: string)
    requires name in db && x in db
    ensures var next := Following(db[name := RenamedLive(db[name], a, b)], ToColumn(name, a, b));
            SameTargets(db[x].columns, next[x].columns) && next[x].indexes.Keys == db[x].indexes.Keys
  {
    var next := Following(db[name := RenamedLive(db[name], a, b)], ToColumn(name, a, b));
    forall h | h in next[x].columns && h.def.references.Reference?
      ensures exists k :: k in db[x].columns && k.def.references.Reference? && k.def.references.table == h.def.references.table
    {
      var i :| 0 <= i < |next[x].columns| && next[x].columns[i] == h;
      assert db[x].columns[i] in db[x].columns;
    }
  }

  lemma TargetsThrough(olds: seq<Held>, mids: seq<Held>, news: seq<Held>)
    requires SameTargets(olds, mids) && SameTargets(mids, news)
    ensures SameTargets(olds, news)
  {
  }

  lemma {:induction false} RenamedKeeps(db: Db, name: string, renames: seq<Rename>)
    requires name in db
    ensures RenamedDb(db, name, renames).Keys == db.Keys
    ensures forall x | x in db :: RenamedDb(db, name, renames)[x].indexes.Keys == db[x].indexes.Keys && SameTargets(db[x].columns, RenamedDb(db, name, renames)[x].columns)
    decreases |renames|
  {
    if renames != [] {
      var a, b := renames[0].was, renames[0].becomes;
      var next := Following(db[name := RenamedLive(db[name], a, b)], ToColumn(name, a, b));
      forall x | x in db ensures SameTargets(db[x].columns, next[x].columns) && next[x].indexes.Keys == db[x].indexes.Keys { SameTargetsStep(db, name, a, b, x); }
      assert next.Keys == db.Keys;
      hide SameTargets, Following, RenamedLive;
      RenamedKeeps(next, name, renames[1..]);
      forall x | x in db ensures SameTargets(db[x].columns, RenamedDb(db, name, renames)[x].columns) {
        TargetsThrough(db[x].columns, next[x].columns, RenamedDb(db, name, renames)[x].columns);
      }
    }
  }

  // ---- And are undone -----------------------------------------------------------------------

  lemma QuietRest(t: Table, renames: seq<Rename>)
    requires Quiet(t, renames) && renames != []
    ensures Quiet(RelabelOne(t, renames[0].was, renames[0].becomes), renames[1..])
    ensures Unnamed(RelabelOne(t, renames[0].was, renames[0].becomes), renames[0].becomes)
  {
    forall j | 0 <= j < |renames[1..]| ensures renames[1..][j] == renames[j + 1] { }
  }

  /** The table references no column of its own by this name. */
  ghost predicate OwnKeysMiss(t: Table, c: string) {
    forall i | 0 <= i < |t.columns| :: !PointsTo(HeldOf(t.columns[i]), t.name, c)
  }

  lemma OwnKeysStay(t: Table, rows: seq<Row>, a: string, b: string)
    requires OwnKeysMiss(t, a)
    ensures Redirected(LiveOf(t, rows).columns, ToColumn(t.name, a, b)) == LiveOf(t, rows).columns
  {
    var columns := LiveOf(t, rows).columns;
    forall h | h in columns ensures !PointsTo(h, t.name, a) { LayoutHas(t.columns, h); }
    hide Layout;
    forall i | 0 <= i < |columns| ensures Redirect(columns[i], ToColumn(t.name, a, b)) == columns[i] { assert columns[i] in columns; }
  }

  /** A column renamed in a table of a known shape. */
  lemma RenameRuns(sql: Reading, db: Db, t: Table, rows: seq<Row>, a: string, b: string)
    requires t.name !in db && Unnamed(t, a) && OwnKeysMiss(RelabelOne(t, a, b), a)
    requires a in Names(Layout(t.columns)) && b !in Names(Layout(t.columns))
    ensures Execute(sql, db[t.name := LiveOf(t, rows)], RenameColumn(t.name, a, b)) ==
            Some(Following(db, ToColumn(t.name, a, b))[t.name := LiveOf(RelabelOne(t, a, b), RenamedRows(rows, a, b))])
  {
    RenameIsRelabel(t, rows, a, b);
    FollowingAll(db, RelabelOne(t, a, b), RenamedRows(rows, a, b), a, b);
    hide RelabelOne, RenamedRows, Unnamed, Layout, IndexMap, RenamedLive, OwnKeysMiss, Following;
    var live := LiveOf(RelabelOne(t, a, b), RenamedRows(rows, a, b));
    assert db[t.name := LiveOf(t, rows)][t.name := live] == db[t.name := live];
    assert LiveOf(t, rows).columns == Layout(t.columns);
  }

  lemma FollowingAll(db: Db, t: Table, rows: seq<Row>, a: string, b: string)
    requires t.name !in db && OwnKeysMiss(t, a)
    ensures Following(db[t.name := LiveOf(t, rows)], ToColumn(t.name, a, b)) == Following(db, ToColumn(t.name, a, b))[t.name := LiveOf(t, rows)]
  {
    OwnKeysStay(t, rows, a, b);
    hide LiveOf;
  }

  /** Undoing accepted renames never fails, and gives back the old shape when no index predicate, check or key of it names a new column. */
  lemma {:induction false} RenamesBack(sql: Reading, db: Db, t: Table, rows: seq<Row>, renames: seq<Rename>)
    requires WellFormed(t) && Accepted(ColumnNames(t.columns), renames) && Quiet(t, renames) && t.name !in db
    requires forall j | 0 <= j < |renames| :: OwnKeysMiss(t, renames[j].becomes)
    ensures Run(sql, db[t.name := LiveOf(RelabelAll(t, renames), rows)], BackSteps(t.name, renames)) ==
            Some(KeysBack(db, t.name, renames)[t.name := LiveOf(t, RowsBack(rows, renames))])
    decreases |renames|
  {
    if renames != [] {
      var r := renames[0];
      var t1 := RelabelOne(t, r.was, r.becomes);
      var last := RenameColumn(t.name, r.becomes, r.was);
      var start := db[t.name := LiveOf(RelabelAll(t, renames), rows)];
      RunJoined(sql, start, BackSteps(t.name, renames[1..]), [last]);
      RelabelWellFormed(t, r.was, r.becomes);
      AcceptedRest(ColumnNames(t.columns), renames);
      QuietRest(t, renames);
      RelabelBack(t, r.was, r.becomes);
      MissRest(t, renames);
      KeysThere(db, t.name, renames[1..]);
      var others, back := KeysBack(db, t.name, renames[1..]), RowsBack(rows, renames[1..]);
      LayoutIs(t1.columns);
      hide LiveOf, Quiet, WellFormed, Accepted, RelabelOne, Execute, Unnamed, OwnKeysMiss, Following, RenamedRows, Run, Layout;
      RenamesBack(sql, db, t1, rows, renames[1..]);
      LastStep(sql, others[t.name := LiveOf(t1, back)], last);
      RenameRuns(sql, others, t1, back, r.becomes, r.was);
    } else {
      hide LiveOf;
      assert BackSteps(t.name, renames) == [];
    }
  }

  lemma MissRest(t: Table, renames: seq<Rename>)
    requires renames != [] && forall j | 0 <= j < |renames| :: OwnKeysMiss(t, renames[j].becomes)
    ensures forall j | 0 <= j < |renames[1..]| :: OwnKeysMiss(RelabelOne(t, renames[0].was, renames[0].becomes), renames[1..][j].becomes)
  {
    var r := RelabelOne(t, renames[0].was, renames[0].becomes);
    forall j | 0 <= j < |renames[1..]| ensures OwnKeysMiss(r, renames[1..][j].becomes) {
      assert OwnKeysMiss(t, renames[j + 1].becomes);
      forall i | 0 <= i < |r.columns| ensures HeldOf(r.columns[i]).def == HeldOf(t.columns[i]).def { }
    }
  }
}
