/** What SQLite does with the statements of a migration, foreign keys enforced and deferred to the commit. */
module Sqlite {
  import opened Options
  import opened Schema

  datatype Statement =
    | Pragma
    | CreateTable(name: string, shape: Table)
    | CopyRows(target: string, columns: seq<string>, source: string)
    | DropTable(name: string)
    | RenameTable(name: string, to: string)
    | RenameColumn(name: string, column: string, to: string)
    | CreateIndex(name: string, index: Index)

  /** How the database reads the text of a CHECK, and of an index predicate, on a row. */
  datatype Reading = Reading(passes: (seq<Token>, Row) -> bool, covers: (seq<Token>, Row) -> bool)

  // ---- Constraints of one table -------------------------------------------------------------

  function ValueAt(row: Row, c: string): Value { if c in row then row[c] else Null }

  /** NOT NULL is not written beside a key that stands in the type. */
  predicate Mandatory(h: Held) { h.def.notNull && !(h.pk && h.def.sqlType.keyed) }

  predicate NotNulls(columns: seq<Held>, row: Row) {
    forall i | 0 <= i < |columns| && Mandatory(columns[i]) :: columns[i].name in row ==> row[columns[i].name] != Null
  }

  predicate Passes(sql: Reading, columns: seq<Held>, row: Row) {
    forall i | 0 <= i < |columns| && columns[i].def.check != [] :: sql.passes(columns[i].def.check, row)
  }

  /** Two rows may stand side by side under a key: NULLs are never alike. */
  predicate Apart(key: seq<string>, a: Row, b: Row) {
    exists c | c in key :: ValueAt(a, c) == Null || ValueAt(a, c) != ValueAt(b, c)
  }

  predicate Keyed(key: seq<string>, rows: seq<Row>) {
    key == [] || forall i, j | 0 <= i < j < |rows| :: Apart(key, rows[i], rows[j])
  }

  function KeysAmong(columns: seq<Held>): seq<string> {
    if columns == [] then [] else (if columns[0].def.sqlType.keyed then [columns[0].name] else []) + KeysAmong(columns[1..])
  }

  /** The primary key, written at the end of the table or in the type of a column. */
  function KeyColumns(t: Live): seq<string> { if t.primaryKey != [] then t.primaryKey else KeysAmong(t.columns) }

  predicate Covers(sql: Reading, x: Index, row: Row) { x.where == [] || sql.covers(x.where, row) }

  /** A unique index keeps the rows it covers apart. */
  predicate UniqueIn(sql: Reading, x: Index, rows: seq<Row>) {
    x.unique ==> forall i, j | 0 <= i < j < |rows| && Covers(sql, x, rows[i]) && Covers(sql, x, rows[j]) :: Apart(x.columns, rows[i], rows[j])
  }

  predicate TableFits(sql: Reading, t: Live) {
    && (forall row | row in t.rows :: NotNulls(t.columns, row) && Passes(sql, t.columns, row))
    && Keyed(KeyColumns(t), t.rows)
    && (forall x | x in t.indexes :: UniqueIn(sql, t.indexes[x], t.rows))
  }

  // ---- Foreign keys -------------------------------------------------------------------------

  /** A parent key is a primary key or under a unique index of its own. */
  predicate IsKey(t: Live, c: string) {
    c in Names(t.columns) && (KeyColumns(t) == [c] || exists x | x in t.indexes :: t.indexes[x].unique && t.indexes[x].columns == [c] && t.indexes[x].where == [])
  }

  /** The column references a key that is there; otherwise no statement can write the child, and a drop of the parent passes it over. */
  predicate Bound(db: Db, h: Held) {
    h.def.references.Reference? && h.def.references.table in db && IsKey(db[h.def.references.table], h.def.references.column)
  }

  predicate Bindable(db: Db, h: Held) { h.def.references.NoReference? || Bound(db, h) }

  predicate PointsAt(row: Row, h: Held, parent: Row) {
    && h.def.references.Reference? && ValueAt(row, h.name) != Null
    && ValueAt(parent, h.def.references.column) == ValueAt(row, h.name)
  }

  /** A value that is not NULL finds its parent row. */
  predicate Found(db: Db, h: Held, row: Row) {
    h.def.references.NoReference? || ValueAt(row, h.name) == Null
    || (h.def.references.table in db && exists parent | parent in db[h.def.references.table].rows :: PointsAt(row, h, parent))
  }

  predicate At(db: Db, x: string, i: nat) { x in db && i < |db[x].rows| }

  /** The i-th row of x references the j-th row of y through h. */
  predicate Refers(db: Db, x: string, i: nat, h: Held, y: string, j: nat) {
    && At(db, x, i) && At(db, y, j) && h in db[x].columns && Bound(db, h) && h.def.references.table == y
    && PointsAt(db[x].rows[i], h, db[y].rows[j])
  }

  // ---- The implicit DELETE of a dropped table -----------------------------------------------

  /** Deleted with the rows of the dropped table, along at most n cascading references. */
  ghost predicate Doomed(db: Db, gone: string, n: nat, x: string, i: nat)
    decreases n
  {
    At(db, x, i) &&
    (x == gone ||
     (n > 0 && exists h, y, j: nat :: Refers(db, x, i, h, y, j) && h.def.references.onDelete.Cascade? && Doomed(db, gone, n - 1, y, j)))
  }

  ghost predicate Deleted(db: Db, gone: string, x: string, i: nat) { exists n: nat :: Doomed(db, gone, n, x, i) }

  /** The row the column references is deleted. */
  ghost predicate Bereft(db: Db, gone: string, x: string, i: nat, h: Held) {
    exists y, j: nat :: Refers(db, x, i, h, y, j) && Deleted(db, gone, y, j)
  }

  function FallbackOf(columns: seq<Held>, name: string): Value {
    if columns == [] then Null else if columns[0].name == name then columns[0].def.fallback else FallbackOf(columns[1..], name)
  }

  ghost predicate ResetBy(db: Db, gone: string, x: string, i: nat, c: string, action: Action) {
    exists h: Held :: h.name == c && h.def.references.Reference? && h.def.references.onDelete == action && Bereft(db, gone, x, i, h)
  }

  /** What the actions make of a row that stays. */
  ghost function Reset(db: Db, gone: string, x: string, i: nat): Row
    requires At(db, x, i)
  {
    var row := db[x].rows[i];
    map c | c in row ::
      if ResetBy(db, gone, x, i, c, SetNull) then Null
      else if ResetBy(db, gone, x, i, c, SetDefault) then FallbackOf(db[x].columns, c)
      else row[c]
  }

  /** Of the first n rows of a table, those that stay. */
  ghost function Staying(db: Db, gone: string, x: string, n: nat): seq<Row>
    requires x in db && n <= |db[x].rows|
  {
    if n == 0 then [] else Staying(db, gone, x, n - 1) + if Deleted(db, gone, x, n - 1) then [] else [Reset(db, gone, x, n - 1)]
  }

  /** The database once the table is gone and every action was taken. */
  ghost function Without(db: Db, gone: string): Db {
    map x | x in db && x != gone :: db[x].(rows := Staying(db, gone, x, |db[x].rows|))
  }

  /** Some row that stays has lost its parent: the commit will fail, whatever takes the dropped table's place. */
  ghost predicate Orphans(db: Db, gone: string) {
    exists x, i: nat, h :: At(db, x, i) && x != gone && !Deleted(db, gone, x, i) && h in db[x].columns && Bound(db, h)
      && Found(db, h, db[x].rows[i]) && !Found(Without(db, gone), h, Reset(db, gone, x, i))
  }

  // ---- Statements ---------------------------------------------------------------------------

  predicate IndexExists(db: Db, name: string) { exists t | t in db :: name in db[t].indexes }

  /** The row an INSERT of some columns makes: the others take their default. */
  function Filled(columns: seq<Held>, row: Row, copied: seq<string>): Row {
    map c | c in Names(columns) :: if c in copied && c in row then row[c] else FallbackOf(columns, c)
  }

  function FilledRows(columns: seq<Held>, rows: seq<Row>, copied: seq<string>): (filled: seq<Row>)
    ensures |filled| == |rows| && forall i | 0 <= i < |rows| :: filled[i] == Filled(columns, rows[i], copied)
  {
    seq(|rows|, i requires 0 <= i < |rows| => Filled(columns, rows[i], copied))
  }

  predicate NamesOnly(where: seq<Token>, names: set<string>) { forall i | 0 <= i < |where| && where[i].Name? :: where[i].name in names }

  /** At most one column carries a key in its type, and none where the table has one at its end. */
  predicate OneKey(t: Table) {
    && (forall i, j | 0 <= i < j < |t.columns| :: !t.columns[i].def.sqlType.keyed || !t.columns[j].def.sqlType.keyed)
    && (t.primaryKey == [] || forall i | 0 <= i < |t.columns| :: !t.columns[i].def.sqlType.keyed)
  }

  /** A table can be created with columns of different names, one key, and a key and checks that name those columns. */
  predicate Creatable(t: Table) {
    && t.columns != [] && DistinctColumns(t.columns) && OneKey(t)
    && (forall i | 0 <= i < |t.primaryKey| :: t.primaryKey[i] in Names(Layout(t.columns)))
    && (forall i | 0 <= i < |t.columns| :: NamesOnly(t.columns[i].def.check, Names(Layout(t.columns))))
  }

  predicate Indexable(t: Live, x: Index) {
    x.columns != [] && (forall i | 0 <= i < |x.columns| :: x.columns[i] in Names(t.columns)) && NamesOnly(x.where, Names(t.columns))
  }

  function RenamedHeld(columns: seq<Held>, a: string, b: string): (r: seq<Held>)
    ensures |r| == |columns|
    ensures forall i | 0 <= i < |columns| ::
              r[i] == columns[i].(name := Renamed(columns[i].name, a, b), def := columns[i].def.(check := RenamedWhere(columns[i].def.check, a, b)))
  {
    seq(|columns|, i requires 0 <= i < |columns| =>
      columns[i].(name := Renamed(columns[i].name, a, b), def := columns[i].def.(check := RenamedWhere(columns[i].def.check, a, b))))
  }

  /** Renaming a column carries through the table's rows, its key, its checks and every index, predicates included. */
  function RenamedLive(t: Live, a: string, b: string): Live {
    Live(RenamedHeld(t.columns, a, b), RenamedAll(t.primaryKey, a, b), map x | x in t.indexes :: RenamedIndex(t.indexes[x], a, b),
         seq(|t.rows|, i requires 0 <= i < |t.rows| => RenamedRow(t.rows[i], a, b)))
  }

  function Redirect(h: Held, follow: Reference -> Reference): Held { h.(def := h.def.(references := follow(h.def.references))) }

  function Redirected(columns: seq<Held>, follow: Reference -> Reference): (r: seq<Held>)
    ensures |r| == |columns| && forall i | 0 <= i < |columns| :: r[i] == Redirect(columns[i], follow)
  {
    seq(|columns|, i requires 0 <= i < |columns| => Redirect(columns[i], follow))
  }

  /** The references of every table follow a rename. */
  function Following(db: Db, follow: Reference -> Reference): Db {
    map x | x in db :: db[x].(columns := Redirected(db[x].columns, follow))
  }

  function ToTable(name: string, to: string): Reference -> Reference {
    (r: Reference) => if r.Reference? && r.table == name then r.(table := to) else r
  }

  function ToColumn(name: string, a: string, b: string): Reference -> Reference {
    (r: Reference) => if r.Reference? && r.table == name && r.column == a then r.(column := b) else r
  }

  /** What a statement does, and whether it leaves a foreign key for the commit to fail on. */
  datatype Effect = Effect(db: Db, owes: bool)

  ghost function Copied(sql: Reading, db: Db, target: string, columns: seq<string>, source: string): Option<Effect> {
    if target !in db || source !in db || !(forall c | c in columns :: c in Names(db[target].columns) && c in Names(db[source].columns)) then None
    else if !(forall h | h in db[target].columns :: Bindable(db, h)) then None
    else
      var filled := FilledRows(db[target].columns, db[source].rows, columns);
      var next := db[target := db[target].(rows := db[target].rows + filled)];
      if !TableFits(sql, next[target]) then None
      else Some(Effect(next, exists row, h | row in filled && h in db[target].columns :: !Found(next, h, row)))
  }

  /** A drop deletes the rows first; the actions that change a row need the row to fit still. */
  ghost function Dropped(sql: Reading, db: Db, name: string): Option<Effect> {
    if name !in db then None
    else
      var next := Without(db, name);
      if exists x | x in next :: next[x].rows != db[x].rows && !TableFits(sql, next[x]) then None else Some(Effect(next, Orphans(db, name)))
  }

  ghost function EffectOf(sql: Reading, db: Db, s: Statement): Option<Effect> {
    match s
    case Pragma => Some(Effect(db, false))
    case CreateTable(name, shape) =>
      if name in db || IndexExists(db, name) || !Creatable(shape) then None
      else Some(Effect(db[name := Live(Layout(shape.columns), shape.primaryKey, map[], [])], false))
    case CopyRows(target, columns, source) => Copied(sql, db, target, columns, source)
    case DropTable(name) => Dropped(sql, db, name)
    case RenameTable(name, to) =>
      if name in db && to !in db && !IndexExists(db, to) then Some(Effect(Following((db - {name})[to := db[name]], ToTable(name, to)), false)) else None
    case RenameColumn(name, a, b) =>
      if name in db && a in Names(db[name].columns) && b !in Names(db[name].columns)
      then Some(Effect(Following(db[name := RenamedLive(db[name], a, b)], ToColumn(name, a, b)), false)) else None
    case CreateIndex(name, x) =>
      if name !in db || x.name in db then None
      else if IndexExists(db, x.name) then Some(Effect(db, false))
      else if Indexable(db[name], x) && UniqueIn(sql, x, db[name].rows)
      then Some(Effect(db[name := db[name].(indexes := db[name].indexes[x.name := x])], false)) else None
  }

  /** The statements of a migration, and its commit, which fails if one of them left a foreign key without its row. */
  ghost function Migrate(sql: Reading, db: Db, owes: bool, ss: seq<Statement>): Option<Db>
    decreases |ss|
  {
    if ss == [] then if owes then None else Some(db)
    else match EffectOf(sql, db, ss[0])
      case None => None
      case Some(e) => Migrate(sql, e.db, owes || e.owes, ss[1..])
  }

  // ---- One statement after the other --------------------------------------------------------

  /** A statement that fails, or dooms the commit. */
  ghost function Execute(sql: Reading, db: Db, s: Statement): Option<Db> {
    match EffectOf(sql, db, s) case None => None case Some(e) => if e.owes then None else Some(e.db)
  }

  ghost function Run(sql: Reading, db: Db, ss: seq<Statement>): Option<Db>
    decreases |ss|
  {
    if ss == [] then Some(db)
    else match Execute(sql, db, ss[0])
      case None => None
      case Some(next) => Run(sql, next, ss[1..])
  }

  lemma {:induction false} OwingFails(sql: Reading, db: Db, ss: seq<Statement>)
    ensures Migrate(sql, db, true, ss) == None
    decreases |ss|
  {
    hide EffectOf;
    if ss != [] && EffectOf(sql, db, ss[0]).Some? { OwingFails(sql, EffectOf(sql, db, ss[0]).value.db, ss[1..]); }
  }

  /** Nothing pays what a statement owes, so a migration may be followed statement by statement up to the first that fails or owes. */
  lemma {:induction false} CommitDecides(sql: Reading, db: Db, ss: seq<Statement>)
    ensures Migrate(sql, db, false, ss) == Run(sql, db, ss)
    decreases |ss|
  {
    hide EffectOf;
    if ss != [] && EffectOf(sql, db, ss[0]).Some? {
      var e := EffectOf(sql, db, ss[0]).value;
      if e.owes { OwingFails(sql, e.db, ss[1..]); } else { CommitDecides(sql, e.db, ss[1..]); }
    }
  }

  lemma {:induction false} RunJoined(sql: Reading, db: Db, a: seq<Statement>, b: seq<Statement>)
    ensures Run(sql, db, a + b) == match Run(sql, db, a) case None => None case Some(next) => Run(sql, next, b)
    decreases |a|
  {
    if a == [] {
      assert a + b == b;
    } else {
      assert (a + b)[1..] == a[1..] + b;
      hide Execute;
      match Execute(sql, db, a[0])
      case None =>
      case Some(next) => RunJoined(sql, next, a[1..], b);
    }
  }

  lemma StepThen(sql: Reading, db: Db, s: Statement, rest: seq<Statement>)
    ensures Run(sql, db, [s] + rest) == match Execute(sql, db, s) case None => None case Some(next) => Run(sql, next, rest)
  {
    hide Execute;
    assert ([s] + rest)[1..] == rest;
  }

  lemma LastStep(sql: Reading, db: Db, s: Statement)
    ensures Run(sql, db, [s]) == Execute(sql, db, s)
  {
    hide Execute;
    assert [s][1..] == [];
  }

  // ---- When a drop deletes nothing else -----------------------------------------------------

  /** No row of another table references a row of the table. */
  ghost predicate Unreferenced(db: Db, gone: string) {
    forall x, i: nat, h, j: nat | x in db && x != gone :: !Refers(db, x, i, h, gone, j)
  }

  lemma {:induction false} OnlyItsOwn(db: Db, gone: string, n: nat, x: string, i: nat)
    requires Unreferenced(db, gone) && Doomed(db, gone, n, x, i)
    ensures x == gone
    decreases n
  {
    if x != gone {
      var h, y, j: nat :| Refers(db, x, i, h, y, j) && Doomed(db, gone, n - 1, y, j);
      OnlyItsOwn(db, gone, n - 1, y, j);
    }
  }

  lemma {:induction false} AllStay(db: Db, gone: string, x: string, n: nat)
    requires Unreferenced(db, gone) && x in db && x != gone && n <= |db[x].rows|
    ensures Staying(db, gone, x, n) == db[x].rows[..n]
    decreases n
  {
    hide Deleted, Reset, Unreferenced;
    if n > 0 {
      AllStay(db, gone, x, n - 1);
      StaysSame(db, gone, x, n - 1);
      assert db[x].rows[..n] == db[x].rows[..n - 1] + [db[x].rows[n - 1]];
    }
  }

  lemma StaysSame(db: Db, gone: string, x: string, i: nat)
    requires Unreferenced(db, gone) && At(db, x, i) && x != gone
    ensures !Deleted(db, gone, x, i) && Reset(db, gone, x, i) == db[x].rows[i]
  {
    if n: nat :| Doomed(db, gone, n, x, i) { OnlyItsOwn(db, gone, n, x, i); }
    forall h ensures !Bereft(db, gone, x, i, h) {
      if y, j: nat :| Refers(db, x, i, h, y, j) && Deleted(db, gone, y, j) {
        var n: nat :| Doomed(db, gone, n, y, j);
        OnlyItsOwn(db, gone, n, y, j);
      }
    }
  }

  lemma NoOrphans(db: Db, gone: string)
    requires Unreferenced(db, gone) && Without(db, gone) == db - {gone}
    ensures !Orphans(db, gone)
  {
    forall x, i: nat, h | At(db, x, i) && x != gone && h in db[x].columns && Bound(db, h) && Found(db, h, db[x].rows[i])
      ensures Found(Without(db, gone), h, Reset(db, gone, x, i))
    {
      StaysSame(db, gone, x, i);
      var row := db[x].rows[i];
      if ValueAt(row, h.name) != Null {
        var y := h.def.references.table;
        var parent :| parent in db[y].rows && PointsAt(row, h, parent);
        var j :| 0 <= j < |db[y].rows| && db[y].rows[j] == parent;
        assert Refers(db, x, i, h, y, j);
      }
    }
  }

  /** A row that references the dropped table does not stay as it is, unless the commit fails. */
  lemma ReferringChanges(db: Db, gone: string, x: string, i: nat, h: Held, j: nat)
    requires gone in db && x != gone && Refers(db, x, i, h, gone, j)
    ensures Deleted(db, gone, x, i) || Reset(db, gone, x, i) != db[x].rows[i] || Orphans(db, gone)
  {
    if !Deleted(db, gone, x, i) && Reset(db, gone, x, i) == db[x].rows[i] {
      assert gone !in Without(db, gone);
      assert Found(db, h, db[x].rows[i]) && !Found(Without(db, gone), h, Reset(db, gone, x, i));
    }
  }

  /** What the action of a reference does to a row whose parent row goes with the dropped table. */
  lemma ActionTaken(db: Db, gone: string, x: string, i: nat, h: Held, j: nat)
    requires gone in db && x != gone && Refers(db, x, i, h, gone, j)
    ensures h.def.references.onDelete.Cascade? ==> Deleted(db, gone, x, i)
    ensures h.def.references.onDelete.SetNull? ==> ValueAt(Reset(db, gone, x, i), h.name) == Null
  {
    assert Doomed(db, gone, 0, gone, j);
    assert Bereft(db, gone, x, i, h);
    if h.def.references.onDelete.Cascade? { assert Doomed(db, gone, 1, x, i); }
    if h.def.references.onDelete.SetNull? { assert ResetBy(db, gone, x, i, h.name, SetNull); }
  }

  lemma {:induction false} StayingIs(db: Db, gone: string, x: string, n: nat)
    requires x in db && n <= |db[x].rows|
    ensures |Staying(db, gone, x, n)| <= n
    ensures |Staying(db, gone, x, n)| == n <==> forall i | 0 <= i < n :: !Deleted(db, gone, x, i)
    ensures |Staying(db, gone, x, n)| == n ==> forall i | 0 <= i < n :: Staying(db, gone, x, n)[i] == Reset(db, gone, x, i)
    decreases n
  {
    hide Deleted, Reset;
    if n > 0 { StayingIs(db, gone, x, n - 1); }
  }

  lemma DropSucceeds(sql: Reading, db: Db, name: string)
    requires name in db && !Orphans(db, name) && forall x | x in Without(db, name) :: TableFits(sql, Without(db, name)[x])
    ensures Execute(sql, db, DropTable(name)).Some?
  {
    hide Without, Orphans, TableFits;
  }

  lemma DropGives(sql: Reading, db: Db, name: string)
    requires Execute(sql, db, DropTable(name)).Some?
    ensures Execute(sql, db, DropTable(name)) == Some(Without(db, name)) && name in db && !Orphans(db, name)
  {
    hide Without, Orphans, TableFits;
  }

  lemma UnreferencedGone(db: Db, name: string)
    requires Unreferenced(db, name)
    ensures Without(db, name) == db - {name}
  {
    forall x | x in db && x != name ensures Staying(db, name, x, |db[x].rows|) == db[x].rows {
      AllStay(db, name, x, |db[x].rows|);
      assert db[x].rows[..|db[x].rows|] == db[x].rows;
    }
    hide Unreferenced, Staying;
  }

  lemma ReferencedChanges(db: Db, name: string)
    requires name in db && !Unreferenced(db, name) && !Orphans(db, name)
    ensures Without(db, name) != db - {name}
  {
    var x, i: nat, h, j: nat :| x in db && x != name && Refers(db, x, i, h, name, j);
    ReferringChanges(db, name, x, i, h, j);
    StayingIs(db, name, x, |db[x].rows|);
    hide Refers, Orphans, Deleted, Reset, Staying, Unreferenced;
    assert (db - {name})[x].rows == db[x].rows && Without(db, name)[x].rows != db[x].rows;
  }

  /** Dropping a table takes that table and nothing else exactly when no row of another table references one of its rows. */
  lemma DropIsClean(sql: Reading, db: Db, name: string)
    requires name in db
    ensures Execute(sql, db, DropTable(name)) == Some(db - {name}) <==> Unreferenced(db, name)
  {
    if Unreferenced(db, name) {
      UnreferencedGone(db, name);
      NoOrphans(db, name);
      hide Without, Orphans, TableFits, Unreferenced;
    } else {
      hide Without, Orphans, Unreferenced;
      if Execute(sql, db, DropTable(name)).Some? {
        DropGives(sql, db, name);
        ReferencedChanges(db, name);
      }
    }
  }
}
