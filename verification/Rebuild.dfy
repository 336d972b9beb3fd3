/** The SQLite table rebuild: what it emits, and what that does to a table that holds rows. */
module Rebuild {
  import opened Options
  import opened Schema
  import opened Sqlite

  const SUFFIX := "__drel_new"

  function SharedNames(target: seq<Column>, source: seq<Column>): (shared: seq<string>)
    ensures forall c :: c in shared <==> Declares(target, c) && Declares(source, c)
  {
    if target == [] then []
    else
      var rest := SharedNames(target[1..], source);
      assert forall c :: Declares(target, c) <==> c == target[0].name || Declares(target[1..], c);
      if Declares(source, target[0].name) then [target[0].name] + rest else rest
  }

  function IndexSteps(name: string, indexes: seq<Index>): seq<Statement> {
    seq(|indexes|, i requires 0 <= i < |indexes| => CreateIndex(name, indexes[i]))
  }

  function Scratch(target: Table): string { target.name + SUFFIX }

  function CopySteps(target: Table, source: Table): seq<Statement> {
    var shared := SharedNames(target.columns, source.columns);
    if shared == [] then [] else [CopyRows(Scratch(target), shared, source.name)]
  }

  /** The statements that turn a table of one shape into one of another, under the same name. */
  function RebuildSteps(target: Table, source: Table): seq<Statement> {
    var scratch := Scratch(target);
    [Pragma, CreateTable(scratch, target)]
    + CopySteps(target, source)
    + [DropTable(source.name), RenameTable(scratch, target.name)]
    + IndexSteps(target.name, target.indexes)
    + [Pragma]
  }

  /** The shape a table declares, holding some rows. */
  function LiveOf(t: Table, rows: seq<Row>): Live { Live(Layout(t.columns), t.primaryKey, IndexMap(t.indexes), rows) }

  /** No index of the list exists on another table, or has the name of a table. */
  predicate IndexesFree(db: Db, name: string, xs: seq<Index>) {
    (forall i | 0 <= i < |xs| :: xs[i].name !in db) && forall i, t | 0 <= i < |xs| && t in db && t != name :: xs[i].name !in db[t].indexes
  }

  /** No table has the scratch name, and no index. */
  predicate ScratchFree(db: Db, target: Table) { Scratch(target) !in db && !IndexExists(db, Scratch(target)) }

  // ---- Indexes ------------------------------------------------------------------------------

  /** The table has the columns the index and its predicate name, and a unique one keeps its rows apart. */
  predicate CanIndex(sql: Reading, t: Live, x: Index) { Indexable(t, x) && UniqueIn(sql, x, t.rows) }

  predicate AllIndexable(sql: Reading, t: Live, xs: seq<Index>) { forall i | 0 <= i < |xs| :: CanIndex(sql, t, xs[i]) }

  lemma LastIndexable(sql: Reading, t: Live, xs: seq<Index>)
    requires xs != []
    ensures AllIndexable(sql, t, xs) <==> AllIndexable(sql, t, xs[..|xs| - 1]) && CanIndex(sql, t, xs[|xs| - 1])
  {
    hide CanIndex;
    var first := xs[..|xs| - 1];
    if AllIndexable(sql, t, first) && CanIndex(sql, t, xs[|xs| - 1]) {
      forall i | 0 <= i < |xs| ensures CanIndex(sql, t, xs[i]) { assert i < |first| ==> first[i] == xs[i]; }
    }
    if AllIndexable(sql, t, xs) {
      forall i | 0 <= i < |first| ensures CanIndex(sql, t, first[i]) { assert first[i] == xs[i]; }
    }
  }

  /** The database with the first indexes of a list on a table. */
  function With(db: Db, name: string, xs: seq<Index>): Db
    requires name in db
  {
    db[name := db[name].(indexes := IndexMap(xs))]
  }

  /** Creating indexes one by one on a table that has none of them. */
  lemma {:induction false} IndexesCreated(sql: Reading, db: Db, name: string, xs: seq<Index>)
    requires name in db && db[name].indexes == map[] && DistinctIndexes(xs) && IndexesFree(db, name, xs)
    ensures Run(sql, db, IndexSteps(name, xs)) == if AllIndexable(sql, db[name], xs) then Some(With(db, name, xs)) else None
    decreases |xs|
  {
    if xs != [] {
      var n := |xs| - 1;
      var first, last := xs[..n], CreateIndex(name, xs[n]);
      assert IndexSteps(name, xs) == IndexSteps(name, first) + [last];
      assert IndexesFree(db, name, first) && DistinctIndexes(first);
      LastIndexable(sql, db[name], xs);
      hide AllIndexable, CanIndex, IndexSteps, With;
      RunJoined(sql, db, IndexSteps(name, first), [last]);
      IndexesCreated(sql, db, name, first);
      LastIndex(sql, db, name, xs);
    } else {
      assert db[name := db[name].(indexes := map[])] == db;
    }
  }

  lemma LastIndex(sql: Reading, db: Db, name: string, xs: seq<Index>)
    requires xs != [] && name in db && DistinctIndexes(xs) && IndexesFree(db, name, xs)
    ensures var n := |xs| - 1;
            Run(sql, With(db, name, xs[..n]), [CreateIndex(name, xs[n])]) == if CanIndex(sql, db[name], xs[n]) then Some(With(db, name, xs)) else None
  {
    var n := |xs| - 1;
    var x, before := xs[n], With(db, name, xs[..n]);
    LastStep(sql, before, CreateIndex(name, x));
    IndexMapHas(xs[..n], x.name);
    assert !IndexExists(before, x.name);
    hide Run, CanIndex;
    assert before[name := before[name].(indexes := before[name].indexes[x.name := x])] == With(db, name, xs);
    CanIndexStill(sql, db[name], before[name], x);
  }

  lemma CanIndexStill(sql: Reading, t: Live, s: Live, x: Index)
    requires s.columns == t.columns && s.rows == t.rows
    ensures CanIndex(sql, t, x) <==> Indexable(s, x) && UniqueIn(sql, x, s.rows)
  {
  }

  // ---- Up to the rename ---------------------------------------------------------------------

  /** The rows a rebuild copies: none at all when the two shapes share no column. */
  function RebuiltRows(target: Table, source: Table, rows: seq<Row>): seq<Row> {
    var shared := SharedNames(target.columns, source.columns);
    if shared == [] then [] else FilledRows(Layout(target.columns), rows, shared)
  }

  /** A table of the target's shape, without its indexes yet. */
  function Made(target: Table, rows: seq<Row>): Live { Live(Layout(target.columns), target.primaryKey, map[], rows) }

  /** The database between the copy and the drop. */
  function Doubled(db: Db, target: Table, rows: seq<Row>): Db { db[Scratch(target) := Made(target, rows)] }

  /** No foreign key names the scratch table. */
  ghost predicate ScratchUnknown(db: Db, target: Table) {
    && (forall x, h | x in db && h in db[x].columns :: h.def.references.Reference? ==> h.def.references.table != Scratch(target))
    && (forall h | h in Layout(target.columns) :: h.def.references.Reference? ==> h.def.references.table != Scratch(target))
  }

  /** Every shared column is one both layouts have. */
  ghost predicate SharedAreColumns(target: Table, source: Table) {
    forall c | c in SharedNames(target.columns, source.columns) :: c in Names(Layout(target.columns)) && c in Names(Layout(source.columns))
  }

  /** What a copy needs: keys to reference, rows that meet NOT NULL, CHECK and primary key, and parents for what they reference. */
  ghost predicate CopyFits(sql: Reading, db: Db, target: Table, rows: seq<Row>) {
    && (forall h | h in Layout(target.columns) :: Bindable(db, h))
    && TableFits(sql, Made(target, rows))
    && (forall row, h | row in rows && h in Layout(target.columns) :: Found(db, h, row))
  }

  lemma KeysAsBefore(db: Db, target: Table, rows: seq<Row>, h: Held)
    requires Scratch(target) !in db && (h.def.references.Reference? ==> h.def.references.table != Scratch(target))
    ensures Bindable(Doubled(db, target, rows), h) == Bindable(db, h)
    ensures forall row :: Found(Doubled(db, target, rows), h, row) == Found(db, h, row)
  {
  }

  lemma CopyExecutes(sql: Reading, db: Db, target: Table, source: Table)
    requires source.name in db && Names(db[source.name].columns) == Names(Layout(source.columns)) && source.name != Scratch(target) && Scratch(target) !in db
    requires SharedAreColumns(target, source) && SharedNames(target.columns, source.columns) != [] && ScratchUnknown(db, target)
    ensures var rows := RebuiltRows(target, source, db[source.name].rows);
            Execute(sql, Doubled(db, target, []), CopyRows(Scratch(target), SharedNames(target.columns, source.columns), source.name)) ==
            if CopyFits(sql, db, target, rows) then Some(Doubled(db, target, rows)) else None
  {
    var scratch, rows := Scratch(target), RebuiltRows(target, source, db[source.name].rows);
    var made := Doubled(db, target, []);
    assert made[source.name] == db[source.name] && made[scratch].rows == [];
    assert [] + rows == rows;
    assert made[scratch := made[scratch].(rows := rows)] == Doubled(db, target, rows);
    forall h | h in Layout(target.columns)
      ensures Bindable(made, h) == Bindable(db, h) && forall row :: Found(Doubled(db, target, rows), h, row) == Found(db, h, row)
    {
      KeysAsBefore(db, target, [], h);
      KeysAsBefore(db, target, rows, h);
    }
    hide Layout, SharedNames, RebuiltRows, Bindable, Found, TableFits, Names;
  }

  /** The scratch table takes the old one's place. */
  function Taken(db: Db, target: Table): Db
    requires Scratch(target) in db
  {
    (db - {Scratch(target)})[target.name := db[Scratch(target)]]
  }

  lemma NotFollowed(db: Db, name: string, to: string)
    requires forall x, h | x in db && h in db[x].columns :: h.def.references.Reference? ==> h.def.references.table != name
    ensures Following(db, ToTable(name, to)) == db
  {
    forall x | x in db ensures Redirected(db[x].columns, ToTable(name, to)) == db[x].columns {
      forall i | 0 <= i < |db[x].columns| ensures Redirect(db[x].columns[i], ToTable(name, to)) == db[x].columns[i] {
        assert db[x].columns[i] in db[x].columns;
      }
    }
  }

  lemma TakeRuns(sql: Reading, left: Db, target: Table, rest: seq<Statement>)
    requires Scratch(target) in left && target.name !in left && !IndexExists(left, target.name)
    requires forall x, h | x in left && h in left[x].columns :: h.def.references.Reference? ==> h.def.references.table != Scratch(target)
    ensures Run(sql, left, [RenameTable(Scratch(target), target.name)] + rest) == Run(sql, Taken(left, target), rest)
  {
    var taken := Taken(left, target);
    StepThen(sql, left, RenameTable(Scratch(target), target.name), rest);
    forall x, h | x in taken && h in taken[x].columns ensures h.def.references.Reference? ==> h.def.references.table != Scratch(target) { }
    NotFollowed(taken, Scratch(target), target.name);
    hide Run, Following;
  }

  lemma LeftNames(db: Db, target: Table, rows: seq<Row>)
    requires target.name in db && Scratch(target) !in db && ScratchUnknown(db, target) && !IndexExists(db, target.name)
    ensures var left := Without(Doubled(db, target, rows), target.name);
            && Scratch(target) in left && target.name !in left && !IndexExists(left, target.name)
            && forall x, h | x in left && h in left[x].columns :: h.def.references.Reference? ==> h.def.references.table != Scratch(target)
  {
    assert |Scratch(target)| > |target.name|;
    hide Staying, Layout;
  }

  /** The drop, and the rename that follows it. */
  lemma TakesPlace(sql: Reading, db: Db, target: Table, rows: seq<Row>, rest: seq<Statement>)
    requires target.name in db && Scratch(target) !in db && ScratchUnknown(db, target) && !IndexExists(db, target.name)
    ensures var two, drop := Doubled(db, target, rows), DropTable(target.name);
            && Scratch(target) in Without(two, target.name)
            && Run(sql, two, [drop] + ([RenameTable(Scratch(target), target.name)] + rest)) ==
               if Execute(sql, two, drop).Some? then Run(sql, Taken(Without(two, target.name), target), rest) else None
  {
    var two, drop, take := Doubled(db, target, rows), DropTable(target.name), RenameTable(Scratch(target), target.name);
    LeftNames(db, target, rows);
    hide Without, Doubled, Taken, Execute, Run, ScratchUnknown;
    StepThen(sql, two, drop, [take] + rest);
    if Execute(sql, two, drop).Some? {
      DropGives(sql, two, target.name);
      TakeRuns(sql, Without(two, target.name), target, rest);
    }
  }
 lemma CreateRuns(sql: Reading, db: Db, target: Table, rest: seq<Statement>)
    ensures Run(sql, db, [CreateTable(Scratch(target), target)] + rest) ==
            if ScratchFree(db, target) && Creatable(target) then Run(sql, Doubled(db, target, []), rest) else None
  {
    hide Layout, Run, Creatable;
    StepThen(sql, db, CreateTable(Scratch(target), target), rest);
  }

  lemma CopyRuns(sql: Reading, db: Db, target: Table, source: Table, rest: seq<Statement>)
    requires source.name in db && Names(db[source.name].columns) == Names(Layout(source.columns)) && source.name != Scratch(target)
    requires Scratch(target) !in db && SharedAreColumns(target, source) && ScratchUnknown(db, target)
    ensures var shared, rows := SharedNames(target.columns, source.columns), RebuiltRows(target, source, db[source.name].rows);
            Run(sql, Doubled(db, target, []), CopySteps(target, source) + rest) ==
            if shared == [] || CopyFits(sql, db, target, rows) then Run(sql, Doubled(db, target, rows), rest) else None
  {
    var made := Doubled(db, target, []);
    if SharedNames(target.columns, source.columns) == [] {
      assert CopySteps(target, source) + rest == rest;
      assert RebuiltRows(target, source, db[source.name].rows) == [];
    } else {
      CopyExecutes(sql, db, target, source);
      hide RebuiltRows, Layout, SharedNames, Run, CopyFits, ScratchUnknown, Execute;
      StepThen(sql, made, CopySteps(target, source)[0], rest);
    }
  }

  /** The statements of a rebuild, as far as the rename. */
  lemma SwapRuns(sql: Reading, db: Db, target: Table, source: Table, rest: seq<Statement>)
    requires target.name == source.name && source.name in db && Names(db[source.name].columns) == Names(Layout(source.columns))
    requires SharedAreColumns(target, source) && ScratchUnknown(db, target) && !IndexExists(db, target.name)
    ensures var shared, rows := SharedNames(target.columns, source.columns), RebuiltRows(target, source, db[source.name].rows);
            var steps := [CreateTable(Scratch(target), target)] + CopySteps(target, source)
                         + [DropTable(source.name), RenameTable(Scratch(target), target.name)] + rest;
            var two := Doubled(db, target, rows);
            var made := ScratchFree(db, target) && Creatable(target) && (shared == [] || CopyFits(sql, db, target, rows));
            && (made && Execute(sql, two, DropTable(target.name)).Some? ==> Scratch(target) in Without(two, target.name))
            && Run(sql, db, steps) ==
               if made && Execute(sql, two, DropTable(target.name)).Some? then Run(sql, Taken(Without(two, target.name), target), rest) else None
  {
    var shared, rows := SharedNames(target.columns, source.columns), RebuiltRows(target, source, db[source.name].rows);
    assert |Scratch(target)| > |target.name|;
    var create, drop, take := CreateTable(Scratch(target), target), DropTable(source.name), RenameTable(Scratch(target), target.name);
    var ends := [drop] + ([take] + rest);
    assert [create] + CopySteps(target, source) + [drop, take] + rest == [create] + (CopySteps(target, source) + ends);
    CreateRuns(sql, db, target, CopySteps(target, source) + ends);
    if ScratchFree(db, target) && Creatable(target) {
      CopyRuns(sql, db, target, source, ends);
      TakesPlace(sql, db, target, rows, rest);
    }
    hide RebuiltRows, Layout, SharedNames, Run, Without, Dropped, CopyFits, ScratchUnknown, Execute, Creatable, SharedAreColumns, Taken, Doubled;
  }

  // ---- One rebuild --------------------------------------------------------------------------

  /** The scratch name is free, the copied rows fit the new shape, and the new shape fits its indexes. */
  ghost predicate CanRebuild(sql: Reading, db: Db, target: Table, source: Table)
    requires source.name in db
  {
    var rows := RebuiltRows(target, source, db[source.name].rows);
    && ScratchFree(db, target) && Creatable(target)
    && (SharedNames(target.columns, source.columns) == [] || CopyFits(sql, db, target, rows))
    && AllIndexable(sql, Made(target, rows), target.indexes)
  }

  /** No row of another table, and no copied row, references a row of the table. */
  ghost predicate Unpointed(db: Db, target: Table, source: Table)
    requires source.name in db
  {
    Unreferenced(Doubled(db, target, RebuiltRows(target, source, db[source.name].rows)), target.name)
  }

  ghost predicate Rebuildable(db: Db, target: Table, source: Table) {
    && target.name == source.name && source.name in db && Names(db[source.name].columns) == Names(Layout(source.columns))
    && SharedAreColumns(target, source) && ScratchUnknown(db, target)
    && DistinctIndexes(target.indexes) && IndexesFree(db, target.name, target.indexes) && !IndexExists(db, target.name)
  }

  /** What the drop leaves of the copy and of the other tables, under the new shape and its indexes. */
  ghost function Settled(db: Db, target: Table, rows: seq<Row>): Db
    requires Scratch(target) !in db && Scratch(target) != target.name
  {
    var left := Without(Doubled(db, target, rows), target.name);
    Taken(left, target)[target.name := LiveOf(target, left[Scratch(target)].rows)]
  }

  lemma RebuildRuns(sql: Reading, db: Db, target: Table, source: Table)
    requires Rebuildable(db, target, source)
    ensures |Scratch(target)| > |target.name|
    ensures var shared, rows := SharedNames(target.columns, source.columns), RebuiltRows(target, source, db[source.name].rows);
            var two := Doubled(db, target, rows);
            Run(sql, db, RebuildSteps(target, source)) ==
            if ScratchFree(db, target) && Creatable(target) && (shared == [] || CopyFits(sql, db, target, rows))
               && Execute(sql, two, DropTable(target.name)).Some?
               && AllIndexable(sql, Without(two, target.name)[Scratch(target)], target.indexes)
            then Some(Settled(db, target, rows)) else None
  {
    var scratch, shared, rows := Scratch(target), SharedNames(target.columns, source.columns), RebuiltRows(target, source, db[source.name].rows);
    assert |scratch| > |target.name|;
    var swap := [CreateTable(scratch, target)] + CopySteps(target, source)
                + [DropTable(source.name), RenameTable(scratch, target.name)];
    var indexes := IndexSteps(target.name, target.indexes);
    assert RebuildSteps(target, source) == [Pragma] + (swap + (indexes + [Pragma]));
    StepThen(sql, db, Pragma, swap + (indexes + [Pragma]));
    SwapRuns(sql, db, target, source, indexes + [Pragma]);
    var two := Doubled(db, target, rows);
    if scratch !in db && scratch in Without(two, target.name) {
      var left := Without(two, target.name);
      var taken := Taken(left, target);
      assert left[scratch].indexes == map[] && IndexesFree(taken, target.name, target.indexes);
      hide RebuiltRows, Layout, SharedNames, RebuildSteps, IndexMap, IndexesFree, DistinctIndexes;
      hide IndexSteps, CopyFits, Dropped, Staying, AllIndexable, Creatable;
      RunJoined(sql, taken, indexes, [Pragma]);
      IndexesCreated(sql, taken, target.name, target.indexes);
      if AllIndexable(sql, left[scratch], target.indexes) { LastStep(sql, taken[target.name := taken[target.name].(indexes := IndexMap(target.indexes))], Pragma); }
    }
  }

  /** What a rebuild is for: the new shape with the copied rows and its indexes, every other table as it was. */
  function Replaced(db: Db, target: Table, source: Table): Db
    requires source.name in db
  {
    db[target.name := LiveOf(target, RebuiltRows(target, source, db[source.name].rows))]
  }

  /**
   * A rebuild that succeeds leaves exactly the new shape, key and indexes. Its rows are the copied ones, and the rows of every other
   * table are its own, as far as the drop of the old table left them.
   */
  lemma Rebuilt(sql: Reading, db: Db, target: Table, source: Table)
    requires Rebuildable(db, target, source) && Run(sql, db, RebuildSteps(target, source)).Some?
    ensures var rows := RebuiltRows(target, source, db[source.name].rows);
            var two, r := Doubled(db, target, rows), Run(sql, db, RebuildSteps(target, source)).value;
            && Scratch(target) !in db && r.Keys == db.Keys && r[target.name] == LiveOf(target, Staying(two, target.name, Scratch(target), |rows|))
            && forall x | x in db && x != target.name :: r[x] == db[x].(rows := Staying(two, target.name, x, |db[x].rows|))
  {
    RebuildRuns(sql, db, target, source);
    hide RebuildSteps, Staying, RebuiltRows, Rebuildable, Layout, IndexMap;
  }

  /** An index of the new shape names its columns only, in its predicate too. */
  lemma IndexesFit(sql: Reading, db: Db, target: Table, source: Table, i: nat)
    requires Rebuildable(db, target, source) && Run(sql, db, RebuildSteps(target, source)).Some? && i < |target.indexes|
    ensures Indexable(LiveOf(target, []), target.indexes[i])
  {
    RebuildRuns(sql, db, target, source);
    hide RebuildSteps, Staying, RebuiltRows, Rebuildable, Layout, IndexMap, Run;
    var two := Doubled(db, target, RebuiltRows(target, source, db[source.name].rows));
    assert Scratch(target) in Without(two, target.name);
    assert CanIndex(sql, Without(two, target.name)[Scratch(target)], target.indexes[i]);
  }

  lemma CleanDrop(sql: Reading, db: Db, target: Table, source: Table)
    requires Rebuildable(db, target, source) && Unpointed(db, target, source) && Scratch(target) !in db
    ensures var rows := RebuiltRows(target, source, db[source.name].rows);
            var two := Doubled(db, target, rows);
            && Scratch(target) != target.name && Execute(sql, two, DropTable(target.name)).Some? && Scratch(target) in Without(two, target.name)
            && Without(two, target.name)[Scratch(target)] == Made(target, rows) && Settled(db, target, rows) == Replaced(db, target, source)
  {
    var rows := RebuiltRows(target, source, db[source.name].rows);
    assert |Scratch(target)| > |target.name|;
    BothThere(db, target, rows);
    hide Without, RebuiltRows, Layout, Execute, Unreferenced;
    DropIsClean(sql, Doubled(db, target, rows), target.name);
    DropGives(sql, Doubled(db, target, rows), target.name);
    SettledClean(db, target, rows);
  }

  lemma SettledClean(db: Db, target: Table, rows: seq<Row>)
    requires target.name in db && Scratch(target) !in db && Scratch(target) != target.name
    requires var two := Doubled(db, target, rows); Without(two, target.name) == two - {target.name}
    ensures Without(Doubled(db, target, rows), target.name)[Scratch(target)] == Made(target, rows)
    ensures Settled(db, target, rows) == db[target.name := LiveOf(target, rows)]
  {
    hide Without, Layout, IndexMap;
  }

  lemma BothThere(db: Db, target: Table, rows: seq<Row>)
    requires target.name in db && Scratch(target) != target.name
    ensures target.name in Doubled(db, target, rows) && Scratch(target) in Without(Doubled(db, target, rows), target.name)
  {
    hide Staying;
  }

  lemma CleanIfExact(db: Db, target: Table, source: Table)
    requires Rebuildable(db, target, source) && Scratch(target) !in db && Scratch(target) != target.name
    requires var rows := RebuiltRows(target, source, db[source.name].rows);
             Scratch(target) in Without(Doubled(db, target, rows), target.name) && Settled(db, target, rows) == Replaced(db, target, source)
    ensures var two := Doubled(db, target, RebuiltRows(target, source, db[source.name].rows)); Without(two, target.name) == two - {target.name}
  {
    var rows := RebuiltRows(target, source, db[source.name].rows);
    var two, settled := Doubled(db, target, rows), Settled(db, target, rows);
    var left := Without(two, target.name);
    hide Staying, RebuiltRows, Layout, IndexMap, Rebuildable;
    assert settled[target.name] == LiveOf(target, rows) && left[Scratch(target)].rows == rows;
    forall x | x in left ensures left[x] == two[x] {
      if x != Scratch(target) { assert settled[x] == left[x] && Replaced(db, target, source)[x] == db[x]; }
    }
  }

  /**
   * A rebuild does what it is for exactly when its scratch name is free, the copied rows fit the new shape, its checks and its keys,
   * the new shape fits its indexes, and no row of another table, and no copied row, references a row of the table.
   */
  lemma RebuildSucceeds(sql: Reading, db: Db, target: Table, source: Table)
    requires Rebuildable(db, target, source)
    ensures Run(sql, db, RebuildSteps(target, source)) == Some(Replaced(db, target, source)) <==> CanRebuild(sql, db, target, source) && Unpointed(db, target, source)
    ensures Unpointed(db, target, source) ==> (Run(sql, db, RebuildSteps(target, source)).Some? <==> CanRebuild(sql, db, target, source))
  {
    var rows := RebuiltRows(target, source, db[source.name].rows);
    var two := Doubled(db, target, rows);
    RebuildRuns(sql, db, target, source);
    hide RebuildSteps, Run, RebuiltRows, Rebuildable, Layout, Settled, Replaced, Without, Dropped, CopyFits, AllIndexable, Unreferenced, Creatable;
    if Scratch(target) !in db {
      if Unpointed(db, target, source) { CleanDrop(sql, db, target, source); }
      if Run(sql, db, RebuildSteps(target, source)) == Some(Replaced(db, target, source)) {
        ExactIsClean(sql, db, target, source);
        CleanDrop(sql, db, target, source);
      }
    }
  }

  lemma ExactIsClean(sql: Reading, db: Db, target: Table, source: Table)
    requires Rebuildable(db, target, source) && Scratch(target) !in db && Scratch(target) != target.name
    requires var rows := RebuiltRows(target, source, db[source.name].rows);
             && Execute(sql, Doubled(db, target, rows), DropTable(target.name)).Some? && Settled(db, target, rows) == Replaced(db, target, source)
    ensures Unpointed(db, target, source)
  {
    var two := Doubled(db, target, RebuiltRows(target, source, db[source.name].rows));
    BothThere(db, target, RebuiltRows(target, source, db[source.name].rows));
    hide Without, RebuiltRows, Layout, Unreferenced, Execute, Rebuildable, Settled, Replaced, LiveOf, Doubled;
    CleanIfExact(db, target, source);
    DropGives(sql, two, target.name);
    DropIsClean(sql, two, target.name);
  }

  // ---- The emitting loops -------------------------------------------------------------------

  method SharedColumnNames(target: Table, source: Table) returns (out: seq<string>)
    ensures out == SharedNames(target.columns, source.columns)
  {
    var inSource: set<string> := {};
    for i := 0 to |source.columns|
      invariant forall c :: c in inSource <==> exists j | 0 <= j < i :: source.columns[j].name == c
    {
      inSource := inSource + {source.columns[i].name};
    }
    assert forall c :: c in inSource <==> Declares(source.columns, c);
    out := [];
    for i := 0 to |target.columns|
      invariant out + SharedNames(target.columns[i..], source.columns) == SharedNames(target.columns, source.columns)
    {
      assert target.columns[i..][0] == target.columns[i] && target.columns[i..][1..] == target.columns[i + 1..];
      if target.columns[i].name in inSource { out := out + [target.columns[i].name]; }
    }
    assert target.columns[|target.columns|..] == [];
  }

  method SqliteRebuild(target: Table, source: Table) returns (steps: seq<Statement>)
    ensures steps == RebuildSteps(target, source)
  {
    var scratch := target.name + SUFFIX;
    var shared := SharedColumnNames(target, source);
    steps := [Pragma, CreateTable(scratch, target)];
    if |shared| > 0 { steps := steps + [CopyRows(scratch, shared, source.name)]; }
    steps := steps + [DropTable(source.name), RenameTable(scratch, target.name)];
    ghost var before := steps;
    for i := 0 to |target.indexes|
      invariant steps == before + IndexSteps(target.name, target.indexes)[..i]
    {
      steps := steps + [CreateIndex(target.name, target.indexes[i])];
    }
    steps := steps + [Pragma];
    assert IndexSteps(target.name, target.indexes)[..|target.indexes|] == IndexSteps(target.name, target.indexes);
  }
}
