/** The two lists of a SQLite table diff, run. */
module TableReplay {
  // Up from the old shape and down from the new one, over the rows of the table and everything that references it.

  import opened Options
  import opened Schema
  import opened Sqlite
  import opened Renames
  import opened Rebuild
  import opened TableDiff
  import opened TableRenames

  // ---- Up and down --------------------------------------------------------------------------

  /** The old shape is sound, the renames are accepted, no other table has an index of the new shape, and nothing names the scratch table. */
  ghost predicate Diffable(db: Db, before: Table, after: Table, renames: seq<Rename>) {
    && before.name == after.name && WellFormed(before) && Accepted(ColumnNames(before.columns), renames)
    && DistinctIndexes(after.indexes) && IndexesFree(db, after.name, after.indexes) && ScratchUnknown(db, after)
    && !IndexExists(db, after.name)
  }

  /** The same of the way back, and the old shape references no column of its own that the renames made. */
  ghost predicate Undoable(db: Db, before: Table, after: Table, renames: seq<Rename>) {
    && before.name == after.name && WellFormed(before) && Accepted(ColumnNames(before.columns), renames)
    && DistinctIndexes(before.indexes) && IndexesFree(db, after.name, before.indexes) && ScratchUnknown(db, before)
    && !IndexExists(db, after.name)
    && forall j | 0 <= j < |renames| :: OwnKeysMiss(before, renames[j].becomes)
  }

  /** A kept column: the new shape has it, under its own name or its new one. */
  predicate Kept(before: Table, after: Table, renames: seq<Rename>, c: string) {
    c in ColumnNames(before.columns) && After(renames, c) in ColumnNames(after.columns)
  }

  function UpRows(before: Table, after: Table, renames: seq<Rename>, rows: seq<Row>): seq<Row> {
    RebuiltRows(after, RelabelAll(before, renames), RowsAfter(rows, renames))
  }

  function DownRows(before: Table, after: Table, renames: seq<Rename>, rows: seq<Row>): seq<Row> {
    RowsBack(RebuiltRows(RelabelAll(before, renames), after, rows), renames)
  }

  /** What the up list is for: the new shape and every row, and no other table changed but for the references that follow the renames. */
  function Upped(db: Db, before: Table, after: Table, renames: seq<Rename>, rows: seq<Row>): Db {
    KeysAfter(db - {after.name}, after.name, renames)[after.name := LiveOf(after, UpRows(before, after, renames, rows))]
  }

  function Downed(db: Db, before: Table, after: Table, renames: seq<Rename>, rows: seq<Row>): Db {
    KeysBack(db - {after.name}, after.name, renames)[after.name := LiveOf(before, DownRows(before, after, renames, rows))]
  }

  // ---- Values -------------------------------------------------------------------------------

  function RowBack(row: Row, renames: seq<Rename>): Row
    decreases |renames|
  {
    if renames == [] then row else RenamedRow(RowBack(row, renames[1..]), renames[0].becomes, renames[0].was)
  }

  lemma {:induction false} RowsAfterAt(rows: seq<Row>, renames: seq<Rename>)
    ensures |RowsAfter(rows, renames)| == |rows| && forall i | 0 <= i < |rows| :: RowsAfter(rows, renames)[i] == RowAfter(rows[i], renames)
    decreases |renames|
  {
    if renames != [] { RowsAfterAt(RenamedRows(rows, renames[0].was, renames[0].becomes), renames[1..]); }
  }

  lemma {:induction false} RowsBackAt(rows: seq<Row>, renames: seq<Rename>)
    ensures |RowsBack(rows, renames)| == |rows| && forall i | 0 <= i < |rows| :: RowsBack(rows, renames)[i] == RowBack(rows[i], renames)
    decreases |renames|
  {
    if renames != [] { RowsBackAt(rows, renames[1..]); }
  }

  lemma {:induction false} ValueBack(names: set<string>, row: Row, renames: seq<Rename>, c: string)
    requires Accepted(names, renames) && c in names && After(renames, c) in row
    ensures c in RowBack(row, renames) && RowBack(row, renames)[c] == row[After(renames, c)]
    decreases |renames|
  {
    if renames != [] {
      var a, b := renames[0].was, renames[0].becomes;
      AcceptedRest(names, renames);
      ValueBack(names - {a} + {b}, row, renames[1..], Renamed(c, a, b));
    }
  }

  lemma {:induction false} RelabelAllHas(t: Table, renames: seq<Rename>, c: string)
    requires WellFormed(t) && Accepted(ColumnNames(t.columns), renames) && c in ColumnNames(t.columns)
    ensures After(renames, c) in ColumnNames(RelabelAll(t, renames).columns)
    decreases |renames|
  {
    if renames != [] {
      var a, b := renames[0].was, renames[0].becomes;
      RelabelWellFormed(t, a, b);
      AcceptedRest(ColumnNames(t.columns), renames);
      RelabelledNames(t.columns, RelabelOne(t, a, b).columns, a, b);
      hide WellFormed, RelabelOne, ColumnNames, Accepted;
      RelabelAllHas(RelabelOne(t, a, b), renames[1..], Renamed(c, a, b));
    }
  }

  /** A column both shapes have keeps its value in every row through a rebuild. */
  lemma RebuildKeepsValue(target: Table, source: Table, rows: seq<Row>, i: nat, c: string)
    requires i < |rows| && c in rows[i] && c in ColumnNames(target.columns) && c in ColumnNames(source.columns)
    ensures var r := RebuiltRows(target, source, rows); |r| == |rows| && c in r[i] && r[i][c] == rows[i][c]
  {
    LayoutNames(target.columns, c);
    LayoutNames(source.columns, c);
    assert c in SharedNames(target.columns, source.columns);
  }

  // ---- Up -----------------------------------------------------------------------------------

  lemma SharedBoth(target: Table, source: Table)
    ensures SharedAreColumns(target, source)
  {
    forall c | c in SharedNames(target.columns, source.columns) ensures c in Names(Layout(target.columns)) && c in Names(Layout(source.columns)) {
      LayoutNames(target.columns, c);
      LayoutNames(source.columns, c);
    }
  }

  lemma RenamedRebuildable(db: Db, before: Table, after: Table, renames: seq<Rename>, rows: seq<Row>)
    requires Diffable(db, before, after, renames) && after.name in db && db[after.name] == LiveOf(before, rows)
    ensures var mid, source := RenamedDb(db, after.name, renames), RelabelAll(before, renames);
            source.name in mid && Rebuildable(mid, after, source)
    ensures Accepted(Names(db[after.name].columns), renames)
  {
    var mid, source := RenamedDb(db, after.name, renames), RelabelAll(before, renames);
    LayoutIs(before.columns);
    LayoutIs(source.columns);
    RelabelAllKeeps(before, renames);
    RelabelAllNames(before, renames);
    RenamesRun(Reading((_, _) => true, (_, _) => true), db, after.name, renames);
    RenamedKeeps(db, after.name, renames);
    SharedBoth(after, source);
    hide RelabelAll, RenamedDb, Layout, WellFormed, Accepted, Run, RenameSteps, KeysAfter, SharedAreColumns, RowsAfter;
  }

  /** The database between the renames and the rebuild. */
  lemma RenamedIs(db: Db, before: Table, after: Table, renames: seq<Rename>, rows: seq<Row>)
    requires Diffable(db, before, after, renames) && after.name in db && db[after.name] == LiveOf(before, rows)
    ensures var mid := RenamedDb(db, after.name, renames);
            && after.name in mid && mid[after.name].rows == RowsAfter(rows, renames)
            && mid - {after.name} == KeysAfter(db - {after.name}, after.name, renames)
  {
    LayoutIs(before.columns);
    assert Accepted(Names(db[after.name].columns), renames);
    hide Layout, KeysAfter, RenamedDb, Diffable, RowsAfter, Accepted, RenameSteps, Run, Names, Moved, IndexMap;
    RenamesRun(Reading((_, _) => true, (_, _) => true), db, after.name, renames);
  }

  lemma ReplacedIsUpped(db: Db, before: Table, after: Table, renames: seq<Rename>, rows: seq<Row>)
    requires Diffable(db, before, after, renames) && after.name in db && db[after.name] == LiveOf(before, rows)
    ensures var mid, source := RenamedDb(db, after.name, renames), RelabelAll(before, renames);
            && source.name == after.name && after.name in mid && Replaced(mid, after, source) == Upped(db, before, after, renames, rows)
            && RebuiltRows(after, source, mid[after.name].rows) == UpRows(before, after, renames, rows)
  {
    var mid, up := RenamedDb(db, after.name, renames), UpRows(before, after, renames, rows);
    RenamedIs(db, before, after, renames, rows);
    RelabelAllKeeps(before, renames);
    hide RebuiltRows, LiveOf, RelabelAll, KeysAfter, RenamedDb, Diffable, RowsAfter;
    assert mid[after.name := LiveOf(after, up)] == (mid - {after.name})[after.name := LiveOf(after, up)];
  }

  /**
   * The up list, when it succeeds, leaves the new shape exactly, whatever it loses. It keeps every row and every other table
   * exactly when, after the renames, the rebuild fits and no row of another table, and no copied row, references the table.
   */
  lemma UpGivesNewShape(sql: Reading, db: Db, before: Table, after: Table, renames: seq<Rename>, rows: seq<Row>)
    requires Diffable(db, before, after, renames) && after.name in db && db[after.name] == LiveOf(before, rows)
    ensures var mid, source, up := RenamedDb(db, after.name, renames), RelabelAll(before, renames), UpRows(before, after, renames, rows);
            var r, two := Run(sql, db, UpSteps(before, after, renames)), Doubled(mid, after, up);
            && source.name in mid
            && (r.Some? ==> after.name in r.value && r.value[after.name] == LiveOf(after, Staying(two, after.name, Scratch(after), |up|)))
            && (r == Some(Upped(db, before, after, renames, rows)) <==> CanRebuild(sql, mid, after, source) && Unpointed(mid, after, source))
            && (Unpointed(mid, after, source) ==> (r.Some? <==> CanRebuild(sql, mid, after, source)))
  {
    var mid, source := RenamedDb(db, after.name, renames), RelabelAll(before, renames);
    RunJoined(sql, db, RenameSteps(after.name, renames), RebuildSteps(after, source));
    RenamedRebuildable(db, before, after, renames, rows);
    RenamesRun(sql, db, after.name, renames);
    RelabelAllKeeps(before, renames);
    ReplacedIsUpped(db, before, after, renames, rows);
    hide RebuildSteps, RenameSteps, Run, RebuiltRows, Layout, IndexMap, RelabelAll, RenamedDb, Rebuildable;
    hide CanRebuild, Unpointed, Diffable, Staying, Upped, Replaced, RowsAfter, Accepted, Doubled;
    RebuildSucceeds(sql, mid, after, source);
    if Run(sql, mid, RebuildSteps(after, source)).Some? { Rebuilt(sql, mid, after, source); }
  }

  /** The up list keeps every row exactly when a column is shared, and no copied row is deleted with the table it references. */
  lemma NothingSharedNothingKept(sql: Reading, db: Db, before: Table, after: Table, renames: seq<Rename>, rows: seq<Row>)
    requires Diffable(db, before, after, renames) && after.name in db && db[after.name] == LiveOf(before, rows) && rows != []
    requires Run(sql, db, UpSteps(before, after, renames)).Some?
    ensures var r, source := Run(sql, db, UpSteps(before, after, renames)).value, RelabelAll(before, renames);
            var two := Doubled(RenamedDb(db, after.name, renames), after, UpRows(before, after, renames, rows));
            && after.name in r
            && (|r[after.name].rows| == |rows| <==>
                && (exists c :: c in ColumnNames(source.columns) && c in ColumnNames(after.columns))
                && (forall i: nat | i < |rows| :: !Deleted(two, after.name, Scratch(after), i)))
  {
    var source, up := RelabelAll(before, renames), UpRows(before, after, renames, rows);
    var shared := SharedNames(after.columns, source.columns);
    var two := Doubled(RenamedDb(db, after.name, renames), after, up);
    RowsAfterAt(rows, renames);
    forall c ensures c in shared <==> c in ColumnNames(source.columns) && c in ColumnNames(after.columns) {
      LayoutNames(source.columns, c);
      LayoutNames(after.columns, c);
    }
    if shared != [] { assert shared[0] in shared; }
    assert |up| == if shared == [] then 0 else |rows| by { hide RelabelAll, SharedNames, Layout; }
    assert two[Scratch(after)].rows == up;
    hide RelabelAll, Diffable, Layout, SharedNames, RowsAfter, ColumnNames, Run, UpSteps;
    hide UpRows, RenamedDb, Doubled, Deleted, Staying, IndexMap, CanRebuild, Unpointed;
    UpGivesNewShape(sql, db, before, after, renames, rows);
    StayingIs(two, after.name, Scratch(after), |up|);
  }

  // ---- Down ---------------------------------------------------------------------------------

  /** The scratch name is the same on the way back, and nothing references it. */
  lemma BackRebuildable(db: Db, before: Table, after: Table, renames: seq<Rename>, rows: seq<Row>)
    requires Undoable(db, before, after, renames) && after.name in db && db[after.name] == LiveOf(after, rows)
    ensures Rebuildable(db, RelabelAll(before, renames), after)
  {
    var target := RelabelAll(before, renames);
    RelabelAllAt(before, renames);
    RelabelAllKeeps(before, renames);
    SharedBoth(target, after);
    forall h | h in Layout(target.columns) && h.def.references.Reference? ensures h.def.references.table != Scratch(target) {
      LayoutHas(target.columns, h);
      var i :| 0 <= i < |target.columns| && h == HeldOf(target.columns[i]);
      HasLayout(before.columns, i);
      assert HeldOf(before.columns[i]).def == h.def;
    }
    hide RelabelAll, Layout, WellFormed, Accepted, SharedAreColumns, OwnKeysMiss;
  }

  /** What is left to undo after the rebuild. */
  lemma DownRuns(sql: Reading, db: Db, before: Table, after: Table, renames: seq<Rename>, rows: seq<Row>)
    requires Undoable(db, before, after, renames) && Quiet(before, renames) && after.name in db && db[after.name] == LiveOf(after, rows)
    ensures var target := RelabelAll(before, renames);
            var r, two := Run(sql, db, RebuildSteps(target, after)), Doubled(db, target, RebuiltRows(target, after, rows));
            Run(sql, db, DownSteps(before, after, renames)) ==
            if r.None? then None
            else Some(KeysBack(r.value - {after.name}, after.name, renames)
                      [after.name := LiveOf(before, RowsBack(Staying(two, after.name, Scratch(target), |RebuiltRows(target, after, rows)|), renames))])
  {
    var target := RelabelAll(before, renames);
    BackRebuildable(db, before, after, renames, rows);
    RunJoined(sql, db, RebuildSteps(target, after), BackSteps(after.name, renames));
    RelabelAllKeeps(before, renames);
    var copied := RebuiltRows(target, after, rows);
    var two := Doubled(db, target, copied);
    hide RebuildSteps, Run, RebuiltRows, Layout, IndexMap, RelabelAll, Rebuildable, Staying;
    hide Quiet, WellFormed, Accepted, OwnKeysMiss, Doubled, RowsBack, KeysBack;
    if Run(sql, db, RebuildSteps(target, after)).Some? {
      var r := Run(sql, db, RebuildSteps(target, after)).value;
      Rebuilt(sql, db, target, after);
      var left := Staying(two, after.name, Scratch(target), |copied|);
      assert (r - {after.name})[after.name := LiveOf(target, left)] == r;
      RenamesBack(sql, r - {after.name}, before, left, renames);
    }
  }

  lemma {:induction false} RowBackKeys(names: set<string>, row: Row, renames: seq<Rename>)
    requires Accepted(names, renames) && row.Keys == Moved(names, renames)
    ensures RowBack(row, renames).Keys == names
    decreases |renames|
  {
    if renames != [] {
      AcceptedRest(names, renames);
      RowBackKeys(names - {renames[0].was} + {renames[0].becomes}, row, renames[1..]);
      assert renames[0].was in names && renames[0].becomes !in names;
    }
  }

  lemma SameRenamed(p: Row, q: Row, a: string, b: string)
    requires p.Keys == q.Keys && a in p && b !in p && RenamedRow(p, a, b) == RenamedRow(q, a, b)
    ensures p == q
  {
    var r := RenamedRow(p, a, b);
    forall c | c in p ensures p[c] == q[c] {
      if c == a { assert r[b] == p[a]; } else { assert r[c] == p[c]; }
    }
  }

  /** Undoing the renames tells rows apart. */
  lemma {:induction false} RowBackInjective(names: set<string>, p: Row, q: Row, renames: seq<Rename>)
    requires Accepted(names, renames) && p.Keys == q.Keys == Moved(names, renames) && RowBack(p, renames) == RowBack(q, renames)
    ensures p == q
    decreases |renames|
  {
    if renames != [] {
      var next := names - {renames[0].was} + {renames[0].becomes};
      AcceptedRest(names, renames);
      RowBackKeys(next, p, renames[1..]);
      RowBackKeys(next, q, renames[1..]);
      assert renames[0].was in names && renames[0].becomes !in names;
      SameRenamed(RowBack(p, renames[1..]), RowBack(q, renames[1..]), renames[0].becomes, renames[0].was);
      RowBackInjective(next, p, q, renames[1..]);
    }
  }

  lemma LeftIsCopied(db: Db, target: Table, source: Table, rows: seq<Row>, names: set<string>, renames: seq<Rename>)
    requires Accepted(names, renames) && Names(Layout(target.columns)) == Moved(names, renames)
    requires var copied := RebuiltRows(target, source, rows);
             && Scratch(target) in Doubled(db, target, copied) && Doubled(db, target, copied)[Scratch(target)].rows == copied
             && RowsBack(Staying(Doubled(db, target, copied), target.name, Scratch(target), |copied|), renames) == RowsBack(copied, renames)
    ensures var copied := RebuiltRows(target, source, rows); Staying(Doubled(db, target, copied), target.name, Scratch(target), |copied|) == copied
  {
    var copied := RebuiltRows(target, source, rows);
    var two := Doubled(db, target, copied);
    var left := Staying(two, target.name, Scratch(target), |copied|);
    RowsBackAt(left, renames);
    RowsBackAt(copied, renames);
    StayingIs(two, target.name, Scratch(target), |copied|);
    CopiedKeys(target, source, rows);
    hide Staying, RebuiltRows, Doubled, Deleted, Accepted, Moved, Layout, RowsBack;
    forall i | 0 <= i < |copied| ensures left[i] == copied[i] {
      assert left[i] == Reset(two, target.name, Scratch(target), i);
      assert RowsBack(left, renames)[i] == RowsBack(copied, renames)[i];
      RowBackInjective(names, left[i], copied[i], renames);
    }
  }

  lemma CopiedKeys(target: Table, source: Table, rows: seq<Row>)
    ensures forall i | 0 <= i < |RebuiltRows(target, source, rows)| :: RebuiltRows(target, source, rows)[i].Keys == Names(Layout(target.columns))
  {
    hide Layout, SharedNames;
  }

  lemma OthersSame(db: Db, r: Db, name: string, renames: seq<Rename>)
    requires db.Keys == r.Keys && forall x | x in db :: r[x] == db[x].(rows := r[x].rows)
    requires KeysBack(r, name, renames) == KeysBack(db, name, renames)
    ensures r == db
  {
    KeysThere(db, name, renames);
    KeysThere(r, name, renames);
    forall x | x in db ensures r[x] == db[x] { assert KeysBack(r, name, renames)[x].rows == KeysBack(db, name, renames)[x].rows; }
  }

  /** If undoing the renames gives what it should, the rebuild before it did. */
  lemma OnlyFromReplaced(db: Db, r: Db, target: Table, before: Table, after: Table, renames: seq<Rename>, rows: seq<Row>, left: seq<Row>)
    requires after.name in db && db[after.name].rows == rows && after.name == target.name && r.Keys == db.Keys && target == RelabelAll(before, renames)
    requires r[after.name] == LiveOf(target, left) && forall x | x in db && x != after.name :: r[x] == db[x].(rows := r[x].rows)
    requires left == RebuiltRows(target, after, rows)
    requires KeysBack(r - {after.name}, after.name, renames)[after.name := LiveOf(before, RowsBack(left, renames))] == Downed(db, before, after, renames, rows)
    ensures db[target.name := LiveOf(target, RebuiltRows(target, after, rows))] == r
  {
    var name := after.name;
    hide RelabelAll, RebuiltRows, Layout, IndexMap, KeysBack, RowsBack, LiveOf;
    KeysThere(db - {name}, name, renames);
    KeysThere(r - {name}, name, renames);
    var back, downed := KeysBack(r - {name}, name, renames), Downed(db, before, after, renames, rows);
    assert name !in back && back == back[name := LiveOf(before, RowsBack(left, renames))] - {name};
    assert KeysBack(db - {name}, name, renames) == downed - {name};
    OthersSame(db - {name}, r - {name}, name, renames);
    assert r == (r - {name})[name := r[name]] && (db - {name})[name := r[name]] == db[name := r[name]];
  }

  lemma ExactlyDowned(sql: Reading, db: Db, before: Table, after: Table, renames: seq<Rename>, rows: seq<Row>)
    requires Undoable(db, before, after, renames) && Quiet(before, renames) && after.name in db && db[after.name] == LiveOf(after, rows)
    requires Run(sql, db, DownSteps(before, after, renames)) == Some(Downed(db, before, after, renames, rows))
    ensures Run(sql, db, RebuildSteps(RelabelAll(before, renames), after)) == Some(Replaced(db, RelabelAll(before, renames), after))
  {
    var target, name := RelabelAll(before, renames), after.name;
    var copied := RebuiltRows(target, after, rows);
    var two := Doubled(db, target, copied);
    DownRuns(sql, db, before, after, renames, rows);
    BackRebuildable(db, before, after, renames, rows);
    RelabelAllKeeps(before, renames);
    hide DownSteps, RebuildSteps, Run, RelabelAll, RebuiltRows, Layout, IndexMap, Rebuildable;
    hide Undoable, Quiet, Staying, KeysBack, RowsBack, Doubled, LiveOf;
    Rebuilt(sql, db, target, after);
    DownedRows(sql, db, before, after, renames, rows);
    OnlyFromReplaced(db, Run(sql, db, RebuildSteps(target, after)).value, target, before, after, renames, rows, Staying(two, name, Scratch(target), |copied|));
  }

  lemma DownedRows(sql: Reading, db: Db, before: Table, after: Table, renames: seq<Rename>, rows: seq<Row>)
    requires Undoable(db, before, after, renames) && Quiet(before, renames) && after.name in db && db[after.name] == LiveOf(after, rows)
    requires Run(sql, db, DownSteps(before, after, renames)) == Some(Downed(db, before, after, renames, rows))
    ensures var target, copied := RelabelAll(before, renames), RebuiltRows(RelabelAll(before, renames), after, rows);
            && Scratch(target) in Doubled(db, target, copied) && Doubled(db, target, copied)[Scratch(target)].rows == copied
            && Staying(Doubled(db, target, copied), after.name, Scratch(target), |copied|) == copied
  {
    var target := RelabelAll(before, renames);
    var copied := RebuiltRows(target, after, rows);
    DownRuns(sql, db, before, after, renames, rows);
    RelabelAllKeeps(before, renames);
    RelabelAllNames(before, renames);
    LayoutIs(target.columns);
    assert Downed(db, before, after, renames, rows)[after.name].rows == DownRows(before, after, renames, rows);
    hide DownSteps, RebuildSteps, Run, RelabelAll, RebuiltRows, Layout, IndexMap, Quiet, Staying, KeysBack, RowsBack, WellFormed, Accepted, Downed;
    LeftIsCopied(db, target, after, rows, ColumnNames(before.columns), renames);
  }

  lemma FitIsDowned(sql: Reading, db: Db, before: Table, after: Table, renames: seq<Rename>, rows: seq<Row>)
    requires Undoable(db, before, after, renames) && Quiet(before, renames) && after.name in db && db[after.name] == LiveOf(after, rows)
    requires Run(sql, db, RebuildSteps(RelabelAll(before, renames), after)) == Some(Replaced(db, RelabelAll(before, renames), after))
    ensures Run(sql, db, DownSteps(before, after, renames)) == Some(Downed(db, before, after, renames, rows))
  {
    var target := RelabelAll(before, renames);
    var copied := RebuiltRows(target, after, rows);
    var left := Staying(Doubled(db, target, copied), after.name, Scratch(target), |copied|);
    DownRuns(sql, db, before, after, renames, rows);
    BackRebuildable(db, before, after, renames, rows);
    RelabelAllKeeps(before, renames);
    AsDeclared(after, rows);
    ReplacedBy(db, target, after);
    DownedIs(db, before, after, renames, rows);
    hide *;
    Rebuilt(sql, db, target, after);
    SameLive(target, copied, left);
  }

  lemma ReplacedBy(db: Db, target: Table, source: Table)
    requires source.name in db && source.name == target.name
    ensures var r := Replaced(db, target, source);
            && target.name in r && r[target.name] == LiveOf(target, RebuiltRows(target, source, db[source.name].rows))
            && r - {target.name} == db - {target.name}
  {
    hide LiveOf, RebuiltRows;
  }

  lemma DownedIs(db: Db, before: Table, after: Table, renames: seq<Rename>, rows: seq<Row>)
    ensures Downed(db, before, after, renames, rows) ==
            KeysBack(db - {after.name}, after.name, renames)
              [after.name := LiveOf(before, RowsBack(RebuiltRows(RelabelAll(before, renames), after, rows), renames))]
  {
    hide LiveOf, RebuiltRows, KeysBack, RowsBack;
  }

  lemma AsDeclared(t: Table, rows: seq<Row>)
    ensures LiveOf(t, rows).rows == rows
  {
  }

  lemma SameLive(t: Table, p: seq<Row>, q: seq<Row>)
    ensures LiveOf(t, p) == LiveOf(t, q) ==> p == q
  {
  }

  /**
   * The down list, when it succeeds, leaves the old shape exactly, whatever it loses. It keeps every row and every other table
   * exactly when the rebuild fits and no row of another table, and no copied row, references the table.
   */
  lemma DownGivesOldShape(sql: Reading, db: Db, before: Table, after: Table, renames: seq<Rename>, rows: seq<Row>)
    requires Undoable(db, before, after, renames) && Quiet(before, renames) && after.name in db && db[after.name] == LiveOf(after, rows)
    ensures var target, r := RelabelAll(before, renames), Run(sql, db, DownSteps(before, after, renames));
            var copied := RebuiltRows(target, after, rows);
            && (r.Some? ==> after.name in r.value && Scratch(target) !in db)
            && (r.Some? ==> r.value[after.name] == LiveOf(before, RowsBack(Staying(Doubled(db, target, copied), after.name, Scratch(target), |copied|), renames)))
            && (r == Some(Downed(db, before, after, renames, rows)) <==> CanRebuild(sql, db, target, after) && Unpointed(db, target, after))
            && (Unpointed(db, target, after) ==> (r.Some? <==> CanRebuild(sql, db, target, after)))
  {
    var target := RelabelAll(before, renames);
    DownRuns(sql, db, before, after, renames, rows);
    BackRebuildable(db, before, after, renames, rows);
    RelabelAllKeeps(before, renames);
    hide DownSteps, RebuildSteps, Run, RelabelAll, RebuiltRows, Layout, IndexMap, Rebuildable, Undoable, Quiet;
    hide Staying, KeysBack, RowsBack, CanRebuild, Unpointed, Doubled, Replaced, Downed, LiveOf;
    RebuildSucceeds(sql, db, target, after);
    if Run(sql, db, RebuildSteps(target, after)).Some? { Rebuilt(sql, db, target, after); }
    if Run(sql, db, DownSteps(before, after, renames)) == Some(Downed(db, before, after, renames, rows)) {
      ExactlyDowned(sql, db, before, after, renames, rows);
    } else if CanRebuild(sql, db, target, after) && Unpointed(db, target, after) {
      FitIsDowned(sql, db, before, after, renames, rows);
    }
  }

  // ---- There and back -----------------------------------------------------------------------

  /** Going up, each row keeps the value of every column that stays, under the column's new name. */
  lemma UpKeepsValues(before: Table, after: Table, renames: seq<Rename>, rows: seq<Row>, i: nat, c: string)
    requires WellFormed(before) && Accepted(ColumnNames(before.columns), renames) && Kept(before, after, renames, c)
    requires i < |rows| && rows[i].Keys == ColumnNames(before.columns)
    ensures var up := UpRows(before, after, renames, rows);
            |up| == |rows| && After(renames, c) in up[i] && up[i][After(renames, c)] == rows[i][c]
  {
    RowsAfterAt(rows, renames);
    ValueAfter(rows[i], renames, c);
    RelabelAllHas(before, renames, c);
    hide RebuiltRows, WellFormed, Accepted, RelabelAll, ColumnNames;
    RebuildKeepsValue(after, RelabelAll(before, renames), RowsAfter(rows, renames), i, After(renames, c));
  }

  lemma DownKeepsValues(before: Table, after: Table, renames: seq<Rename>, rows: seq<Row>, i: nat, c: string)
    requires WellFormed(before) && Accepted(ColumnNames(before.columns), renames) && Kept(before, after, renames, c)
    requires i < |rows| && After(renames, c) in rows[i]
    ensures var down := DownRows(before, after, renames, rows);
            |down| == |rows| && c in down[i] && down[i][c] == rows[i][After(renames, c)]
  {
    var rebuilt := RebuiltRows(RelabelAll(before, renames), after, rows);
    RelabelAllHas(before, renames, c);
    RebuildKeepsValue(RelabelAll(before, renames), after, rows, i, After(renames, c));
    RowsBackAt(rebuilt, renames);
    ValueBack(ColumnNames(before.columns), rebuilt[i], renames, c);
  }

  lemma StillUndoable(db: Db, before: Table, after: Table, renames: seq<Rename>, rows: seq<Row>)
    requires Diffable(db, before, after, renames) && Undoable(db, before, after, renames) && after.name in db
    ensures Undoable(Upped(db, before, after, renames, rows), before, after, renames)
  {
    KeysAfterKeeps(db - {after.name}, after.name, renames);
    IndexMapHas(after.indexes, after.name);
    hide WellFormed, Accepted, DistinctIndexes, OwnKeysMiss, KeysAfter, UpRows, Layout, IndexMap;
    assert Scratch(after) == Scratch(before);
    var upped := Upped(db, before, after, renames, rows);
    forall t | t in upped ensures after.name !in upped[t].indexes { assert t != after.name ==> upped[t].indexes == db[t].indexes; }
  }
  lemma UppedOthers(db: Db, before: Table, after: Table, renames: seq<Rename>, rows: seq<Row>)
    ensures var upped := Upped(db, before, after, renames, rows);
            && upped - {after.name} == KeysAfter(db - {after.name}, after.name, renames)
            && after.name in upped && upped[after.name] == LiveOf(after, UpRows(before, after, renames, rows))
  {
    KeysAfterKeeps(db - {after.name}, after.name, renames);
    hide KeysAfter, LiveOf, UpRows;
  }

  lemma DownedBack(db: Db, before: Table, after: Table, renames: seq<Rename>, rows: seq<Row>)
    requires after.name in db && Accepted(ColumnNames(before.columns), renames)
    requires KeysAmongNames(db - {after.name}, after.name, ColumnNames(before.columns))
    ensures var upped, up := Upped(db, before, after, renames, rows), UpRows(before, after, renames, rows);
            Downed(upped, before, after, renames, up) == db[after.name := LiveOf(before, DownRows(before, after, renames, up))]
  {
    var others, live := db - {after.name}, LiveOf(before, DownRows(before, after, renames, UpRows(before, after, renames, rows)));
    UppedOthers(db, before, after, renames, rows);
    KeysRoundTrip(others, after.name, ColumnNames(before.columns), renames);
    hide KeysAfter, KeysBack, LiveOf, UpRows, DownRows, Upped, Accepted, KeysAmongNames, ColumnNames;
    assert others[after.name := live] == db[after.name := live];
  }

  /** The two lists one after the other, when both rebuilds fit and nothing references the table at either. */
  lemma RebuildRoundTrip(sql: Reading, db: Db, before: Table, after: Table, renames: seq<Rename>, rows: seq<Row>)
    requires Diffable(db, before, after, renames) && Undoable(db, before, after, renames) && Quiet(before, renames)
    requires after.name in db && db[after.name] == LiveOf(before, rows) && KeysAmongNames(db - {after.name}, after.name, ColumnNames(before.columns))
    requires var mid := RenamedDb(db, after.name, renames); var source := RelabelAll(before, renames);
             source.name in mid && CanRebuild(sql, mid, after, source) && Unpointed(mid, after, source)
    requires var upped := Upped(db, before, after, renames, rows); var target := RelabelAll(before, renames);
             CanRebuild(sql, upped, target, after) && Unpointed(upped, target, after)
    ensures var upped := Upped(db, before, after, renames, rows);
            var down := DownRows(before, after, renames, UpRows(before, after, renames, rows));
            && Run(sql, db, UpSteps(before, after, renames)) == Some(upped)
            && Run(sql, upped, DownSteps(before, after, renames)) == Some(db[after.name := LiveOf(before, down)])
  {
    StillUndoable(db, before, after, renames, rows);
    UppedOthers(db, before, after, renames, rows);
    DownedBack(db, before, after, renames, rows);
    hide *;
    UpGivesNewShape(sql, db, before, after, renames, rows);
    DownGivesOldShape(sql, Upped(db, before, after, renames, rows), before, after, renames, UpRows(before, after, renames, rows));
  }

  /** Up and down again, each row has the value it had in every column that was kept or renamed. */
  lemma ValuesComeBack(before: Table, after: Table, renames: seq<Rename>, rows: seq<Row>, i: nat, c: string)
    requires WellFormed(before) && Accepted(ColumnNames(before.columns), renames) && Kept(before, after, renames, c)
    requires i < |rows| && rows[i].Keys == ColumnNames(before.columns)
    ensures var up := UpRows(before, after, renames, rows);
            var down := DownRows(before, after, renames, up);
            && |up| == |down| == |rows|
            && After(renames, c) in up[i] && up[i][After(renames, c)] == rows[i][c]
            && c in down[i] && down[i][c] == rows[i][c]
  {
    hide UpRows, DownRows, WellFormed, Accepted, Kept;
    UpKeepsValues(before, after, renames, rows, i, c);
    DownKeepsValues(before, after, renames, UpRows(before, after, renames, rows), i, c);
  }

  /** With every column kept, the down list undoes the up list, row by row. */
  lemma NothingDroppedAllBack(before: Table, after: Table, renames: seq<Rename>, rows: seq<Row>)
    requires WellFormed(before) && Accepted(ColumnNames(before.columns), renames) && before.columns != []
    requires forall c | c in ColumnNames(before.columns) :: Kept(before, after, renames, c)
    requires forall row | row in rows :: row.Keys == ColumnNames(before.columns)
    ensures DownRows(before, after, renames, UpRows(before, after, renames, rows)) == rows
  {
    var down := DownRows(before, after, renames, UpRows(before, after, renames, rows));
    if rows == [] {
      NoRows(before, after, renames);
    } else {
      assert rows[0] in rows && before.columns[0].name in ColumnNames(before.columns);
      ValuesComeBack(before, after, renames, rows, 0, before.columns[0].name);
      DownKeys(before, after, renames, UpRows(before, after, renames, rows));
      hide *;
      forall i | 0 <= i < |rows| ensures down[i] == rows[i] {
        assert rows[i] in rows;
        RowComesBack(before, after, renames, rows, i);
      }
    }
  }

  lemma RowComesBack(before: Table, after: Table, renames: seq<Rename>, rows: seq<Row>, i: nat)
    requires WellFormed(before) && Accepted(ColumnNames(before.columns), renames)
    requires forall c | c in ColumnNames(before.columns) :: Kept(before, after, renames, c)
    requires var down := DownRows(before, after, renames, UpRows(before, after, renames, rows));
             i < |down| == |rows| && rows[i].Keys == ColumnNames(before.columns) == down[i].Keys
    ensures DownRows(before, after, renames, UpRows(before, after, renames, rows))[i] == rows[i]
  {
    var down := DownRows(before, after, renames, UpRows(before, after, renames, rows));
    hide *;
    forall c | c in rows[i] ensures down[i][c] == rows[i][c] { ValuesComeBack(before, after, renames, rows, i, c); }
  }

  lemma NoRows(before: Table, after: Table, renames: seq<Rename>)
    ensures DownRows(before, after, renames, UpRows(before, after, renames, [])) == []
  {
    RowsAfterAt([], renames);
    RowsBackAt(RebuiltRows(RelabelAll(before, renames), after, UpRows(before, after, renames, [])), renames);
  }

  lemma DownKeys(before: Table, after: Table, renames: seq<Rename>, rows: seq<Row>)
    requires WellFormed(before) && Accepted(ColumnNames(before.columns), renames)
    ensures forall i | 0 <= i < |DownRows(before, after, renames, rows)| :: DownRows(before, after, renames, rows)[i].Keys == ColumnNames(before.columns)
  {
    var target := RelabelAll(before, renames);
    var copied := RebuiltRows(target, after, rows);
    RelabelAllNames(before, renames);
    LayoutIs(target.columns);
    CopiedKeys(target, after, rows);
    RowsBackAt(copied, renames);
    hide RebuiltRows, RelabelAll, WellFormed, Layout, Moved, Accepted;
    forall i | 0 <= i < |copied| ensures RowBack(copied[i], renames).Keys == ColumnNames(before.columns) {
      RowBackKeys(ColumnNames(before.columns), copied[i], renames);
    }
  }

  // ---- When the down list succeeds ----------------------------------------------------------

  /** The condition on predicates is needed: an old index predicate that names a renamed column makes the down migration fail. */
  lemma PredicateStopsDown(sql: Reading, db: Db, before: Table, after: Table, renames: seq<Rename>, rows: seq<Row>, i: nat, j: nat)
    requires Undoable(db, before, after, renames) && after.name in db && db[after.name] == LiveOf(after, rows)
    requires i < |before.indexes| && j < |renames| && Mentions(before.indexes[i].where, renames[j].was)
    ensures Run(sql, db, DownSteps(before, after, renames)).None?
  {
    var target := RelabelAll(before, renames);
    RunJoined(sql, db, RebuildSteps(target, after), BackSteps(after.name, renames));
    BackRebuildable(db, before, after, renames, rows);
    if Run(sql, db, RebuildSteps(target, after)).Some? {
      RelabelAllKeeps(before, renames);
      RelabelAllIndexAt(before, renames, i);
      hide RebuildSteps, RebuiltRows, Layout, Rebuildable, Run;
      IndexesFit(sql, db, target, after, i);
      var name := renames[j].was;
      var k :| 0 <= k < |target.indexes[i].where| && target.indexes[i].where[k] == Name(name);
      assert name in Names(LiveOf(target, []).columns);
      LayoutNames(target.columns, name);
      RelabelAllLacks(before, renames, j);
    }
  }

  lemma RelabelAllLacks(t: Table, renames: seq<Rename>, j: nat)
    requires Accepted(ColumnNames(t.columns), renames) && j < |renames|
    ensures renames[j].was !in ColumnNames(RelabelAll(t, renames).columns)
  {
    var r := RelabelAll(t, renames);
    RelabelAllAt(t, renames);
    forall i | 0 <= i < |r.columns| ensures r.columns[i].name != renames[j].was {
      assert t.columns[i].name in ColumnNames(t.columns);
      AfterLeaves(ColumnNames(t.columns), renames, t.columns[i].name, j);
    }
  }

  /** A shape that can be made: the table, and then its indexes over columns and predicates of it. */
  predicate Makeable(t: Table) {
    && Creatable(t)
    && (forall i | 0 <= i < |t.indexes| :: t.indexes[i].columns != [] && NamesOnly(t.indexes[i].where, ColumnNames(t.columns)))
  }

  /** A text that names no column of the renames under its old name. */
  predicate Lasting(where: seq<Token>, renames: seq<Rename>) { forall j | 0 <= j < |renames| :: !Mentions(where, renames[j].was) }

  /** No index predicate and no check names a column that is renamed. */
  predicate TextsKept(t: Table, renames: seq<Rename>) {
    && (forall i | 0 <= i < |t.indexes| :: Lasting(t.indexes[i].where, renames))
    && (forall i | 0 <= i < |t.columns| :: Lasting(t.columns[i].def.check, renames))
  }

  lemma TextFits(names: set<string>, renames: seq<Rename>, where: seq<Token>)
    requires Accepted(names, renames) && NamesOnly(where, names)
    ensures NamesOnly(where, Moved(names, renames)) <==> Lasting(where, renames)
    ensures Lasting(where, renames) ==> forall j | 0 <= j < |renames| :: !Mentions(where, renames[j].becomes)
  {
    forall k | 0 <= k < |where| && where[k].Name?
      ensures where[k].name in Moved(names, renames) <==> !Claimed(renames, where[k].name)
      ensures forall j | 0 <= j < |renames| :: renames[j].becomes != where[k].name
    {
      MovedIs(names, renames, where[k].name);
    }
    hide Moved, Accepted;
    if k :| 0 <= k < |where| && where[k].Name? && Claimed(renames, where[k].name) {
      var j :| 0 <= j < |renames| && renames[j].was == where[k].name;
      assert where[k] == Name(renames[j].was) && Mentions(where, renames[j].was);
    }
    if j :| 0 <= j < |renames| && Mentions(where, renames[j].was) {
      var k :| 0 <= k < |where| && where[k] == Name(renames[j].was);
      assert where[k].Name? && Claimed(renames, where[k].name);
    }
  }

  lemma KeptIsQuiet(t: Table, renames: seq<Rename>)
    requires Makeable(t) && Accepted(ColumnNames(t.columns), renames) && TextsKept(t, renames)
    ensures Quiet(t, renames)
  {
    LayoutIs(t.columns);
    hide Mentions, Accepted, Moved, NamesOnly, Layout, ColumnNames;
    forall j | 0 <= j < |renames| ensures Unnamed(t, renames[j].was) && Unnamed(t, renames[j].becomes) {
      forall i | 0 <= i < |t.indexes| ensures !Mentions(t.indexes[i].where, renames[j].becomes) { TextFits(ColumnNames(t.columns), renames, t.indexes[i].where); }
      forall i | 0 <= i < |t.columns| ensures !Mentions(t.columns[i].def.check, renames[j].becomes) { TextFits(ColumnNames(t.columns), renames, t.columns[i].def.check); }
    }
  }

  /** The renamed shape can be made, its indexes but for their uniqueness too, exactly when no text names a renamed column. */
  lemma ShapeFits(before: Table, renames: seq<Rename>)
    requires WellFormed(before) && Makeable(before) && Accepted(ColumnNames(before.columns), renames)
    ensures var target := RelabelAll(before, renames);
            Creatable(target) && (forall i | 0 <= i < |target.indexes| :: Indexable(LiveOf(target, []), target.indexes[i])) <==>
            TextsKept(before, renames)
  {
    var target, names := RelabelAll(before, renames), ColumnNames(before.columns);
    RelabelAllNames(before, renames);
    RelabelAllKeeps(before, renames);
    LayoutIs(target.columns);
    forall i | 0 <= i < |before.indexes| ensures Indexable(LiveOf(target, []), target.indexes[i]) <==> Lasting(before.indexes[i].where, renames) {
      RelabelAllIndexAt(before, renames, i);
      TextFits(names, renames, before.indexes[i].where);
      assert forall j | 0 <= j < |target.indexes[i].columns| :: target.indexes[i].columns[j] in ColumnNames(target.columns);
      hide RelabelAll, Moved, Layout, ColumnNames, Accepted, Mentions, Lasting, NamesOnly;
    }
    ChecksFit(before, renames);
    hide RelabelAll, Moved, Layout, ColumnNames, Accepted, Mentions, Lasting, NamesOnly, Indexable, Creatable, WellFormed, IndexMap;
  }

  lemma ChecksFit(before: Table, renames: seq<Rename>)
    requires WellFormed(before) && Makeable(before) && Accepted(ColumnNames(before.columns), renames)
    ensures Creatable(RelabelAll(before, renames)) <==> forall i | 0 <= i < |before.columns| :: Lasting(before.columns[i].def.check, renames)
  {
    var target, names := RelabelAll(before, renames), ColumnNames(before.columns);
    RelabelAllNames(before, renames);
    RelabelAllAt(before, renames);
    LayoutIs(target.columns);
    LayoutIs(before.columns);
    forall i | 0 <= i < |before.columns|
      ensures NamesOnly(target.columns[i].def.check, Names(Layout(target.columns))) <==> Lasting(before.columns[i].def.check, renames)
    {
      TextFits(names, renames, before.columns[i].def.check);
    }
    hide RelabelAll, Moved, Layout, ColumnNames, Accepted, Mentions, Lasting, NamesOnly, Names;
  }

  /** The copied rows meet the shape they come into, and every unique index of it. */
  ghost predicate RowsFit(sql: Reading, db: Db, target: Table, source: Table)
    requires source.name in db
  {
    var rows := RebuiltRows(target, source, db[source.name].rows);
    && (SharedNames(target.columns, source.columns) == [] || CopyFits(sql, db, target, rows))
    && forall i | 0 <= i < |target.indexes| :: UniqueIn(sql, target.indexes[i], rows)
  }

  lemma FitsIs(sql: Reading, db: Db, before: Table, after: Table, renames: seq<Rename>)
    requires WellFormed(before) && Makeable(before) && Accepted(ColumnNames(before.columns), renames) && after.name in db
    ensures var target := RelabelAll(before, renames);
            CanRebuild(sql, db, target, after) <==> ScratchFree(db, target) && RowsFit(sql, db, target, after) && TextsKept(before, renames)
  {
    var target := RelabelAll(before, renames);
    var rows := RebuiltRows(target, after, db[after.name].rows);
    ShapeFits(before, renames);
    hide RelabelAll, RebuiltRows, Layout, CopyFits, TextsKept, Creatable, Indexable;
    hide UniqueIn, WellFormed, Makeable, Accepted, SharedNames, IndexMap, AllIndexable;
    AllIndexableIs(sql, target, rows);
  }

  lemma AllIndexableIs(sql: Reading, target: Table, rows: seq<Row>)
    ensures AllIndexable(sql, Made(target, rows), target.indexes) <==>
            && (forall i | 0 <= i < |target.indexes| :: Indexable(LiveOf(target, []), target.indexes[i]))
            && (forall i | 0 <= i < |target.indexes| :: UniqueIn(sql, target.indexes[i], rows))
  {
    hide Indexable, UniqueIn, Layout;
    forall i | 0 <= i < |target.indexes|
      ensures CanIndex(sql, Made(target, rows), target.indexes[i]) <==> Indexable(LiveOf(target, []), target.indexes[i]) && UniqueIn(sql, target.indexes[i], rows)
    {
      SameIndexable(target, rows, target.indexes[i]);
    }
    hide CanIndex;
  }

  lemma SameIndexable(target: Table, rows: seq<Row>, x: Index)
    ensures Indexable(Made(target, rows), x) == Indexable(LiveOf(target, []), x)
  {
  }

  /**
   * The down list gives the old shape back, with every row, and no other table changed, exactly when its scratch name is free, the
   * rows meet the NOT NULLs, checks, keys, references and unique indexes of the old shape, no old index predicate and no old check
   * names a renamed column, and no row of another table, and no copied row, references the table.
   */
  lemma DownSucceeds(sql: Reading, db: Db, before: Table, after: Table, renames: seq<Rename>, rows: seq<Row>)
    requires Undoable(db, before, after, renames) && Makeable(before) && after.name in db && db[after.name] == LiveOf(after, rows)
    ensures var target, r := RelabelAll(before, renames), Run(sql, db, DownSteps(before, after, renames));
            var fit := ScratchFree(db, target) && RowsFit(sql, db, target, after) && TextsKept(before, renames);
            && (r == Some(Downed(db, before, after, renames, rows)) <==> fit && Unpointed(db, target, after))
            && (Unpointed(db, target, after) ==> (r.Some? <==> fit))
  {
    var target := RelabelAll(before, renames);
    FitsIs(sql, db, before, after, renames);
    if TextsKept(before, renames) {
      KeptIsQuiet(before, renames);
      hide DownSteps, RelabelAll, Undoable, Makeable, TextsKept, Quiet, CanRebuild, Unpointed;
      hide RowsFit, Downed, Run, LiveOf, RebuiltRows, Staying, Doubled;
      DownGivesOldShape(sql, db, before, after, renames, rows);
    } else {
      UnfitStopsDown(sql, db, before, after, renames, rows);
    }
  }

  /** What no row and no reference changes: a shape that cannot be made makes the down list fail. */
  lemma UnfitStopsDown(sql: Reading, db: Db, before: Table, after: Table, renames: seq<Rename>, rows: seq<Row>)
    requires Undoable(db, before, after, renames) && Makeable(before) && after.name in db && db[after.name] == LiveOf(after, rows)
    requires !TextsKept(before, renames)
    ensures Run(sql, db, DownSteps(before, after, renames)) == None
  {
    var target := RelabelAll(before, renames);
    RunJoined(sql, db, RebuildSteps(target, after), BackSteps(after.name, renames));
    BackRebuildable(db, before, after, renames, rows);
    ShapeFits(before, renames);
    hide RebuildSteps, Run, RelabelAll, RebuiltRows, Layout, Rebuildable, Creatable;
    hide Indexable, TextsKept, Without, Dropped, CopyFits, BackSteps, Makeable;
    RebuildRuns(sql, db, target, after);
    if Run(sql, db, RebuildSteps(target, after)).Some? {
      AllIndexesFit(sql, db, target, after);
    }
  }

  lemma AllIndexesFit(sql: Reading, db: Db, target: Table, source: Table)
    requires Rebuildable(db, target, source) && Run(sql, db, RebuildSteps(target, source)).Some?
    ensures forall i | 0 <= i < |target.indexes| :: Indexable(LiveOf(target, []), target.indexes[i])
  {
    hide *;
    forall i | 0 <= i < |target.indexes| ensures Indexable(LiveOf(target, []), target.indexes[i]) { IndexesFit(sql, db, target, source, i); }
  }
}
