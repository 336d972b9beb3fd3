/** The Postgres diff of two whole schemas: what it emits, and a database to replay it on. */
module SchemaDiff {
  import opened Options
  import opened OrderedSeqs
  import opened Schema
  import opened Renames
  import opened PgReplay
  import opened PgDown
  import DropOrder

  /** A table as a schema declares it. `refs` are the tables its columns reference; the empty name is no reference. */
  datatype Declared = Declared(shape: Table, renamedFrom: string, refs: seq<string>)

  predicate DistinctTitles(ds: seq<Declared>) { forall i, j | 0 <= i < j < |ds| :: ds[i].shape.name != ds[j].shape.name }

  function Titles(ds: seq<Declared>): set<string> { set i | 0 <= i < |ds| :: ds[i].shape.name }

  /** Of the first n tables, the one whose name after the renames is the given one. */
  function Among(ds: seq<Declared>, renames: seq<Rename>, n: nat, title: string): (d: Option<Declared>)
    requires n <= |ds|
    ensures d.Some? <==> exists i | 0 <= i < n :: Lookup(renames, ds[i].shape.name) == title
    ensures d.Some? ==> exists i | 0 <= i < n :: ds[i] == d.value && Lookup(renames, ds[i].shape.name) == title
  {
    if n == 0 then None
    else if Lookup(renames, ds[n - 1].shape.name) == title then Some(ds[n - 1])
    else Among(ds, renames, n - 1, title)
  }

  lemma OwnAmong(ds: seq<Declared>, n: nat, i: nat)
    requires DistinctTitles(ds) && i < |ds| && n <= |ds|
    ensures Among(ds, [], n, ds[i].shape.name) == if i < n then Some(ds[i]) else None
  {
    forall c: string ensures Lookup([], c) == c { }
  }

  lemma AmongNext(ds: seq<Declared>, n: nat, c: string)
    requires 0 < n <= |ds|
    ensures Among(ds, [], n, c) == if ds[n - 1].shape.name == c then Some(ds[n - 1]) else Among(ds, [], n - 1, c)
  {
    assert Lookup([], ds[n - 1].shape.name) == ds[n - 1].shape.name;
  }

  lemma AmongNamed(ds: seq<Declared>, n: nat, c: string)
    requires n <= |ds|
    ensures Among(ds, [], n, c).Some? <==> exists i | 0 <= i < n :: ds[i].shape.name == c
  {
    forall c: string ensures Lookup([], c) == c { }
  }

  // ---- What Postgres does -------------------------------------------------------------------

  /** Tables by name, and which table references which. */
  datatype PgDb = PgDb(tables: map<string, PgTable>, refs: set<(string, string)>)

  datatype DbStep =
    | RenameTo(name: string, to: string)
    | Make(table: Declared)
    | Drop(name: string)
    | Inside(name: string, step: Step)

  function TableMap(ds: seq<Declared>): map<string, PgTable> {
    map c | c in Titles(ds) :: PgOf(Among(ds, [], |ds|, c).value.shape)
  }

  function OwnRefs(d: Declared): set<(string, string)> {
    set j | 0 <= j < |d.refs| && d.refs[j] != "" :: (d.shape.name, d.refs[j])
  }

  function RefsOf(ds: seq<Declared>): set<(string, string)> { set i, p | 0 <= i < |ds| && p in OwnRefs(ds[i]) :: p }

  function DbOf(ds: seq<Declared>): PgDb { PgDb(TableMap(ds), RefsOf(ds)) }

  function OtherIndexes(db: PgDb, name: string): set<string> {
    set t, x | t in db.tables && t != name && x in db.tables[t].indexes :: x
  }

  function MovedRefs(refs: set<(string, string)>, a: string, b: string): set<(string, string)> {
    set p | p in refs :: (Renamed(p.0, a, b), Renamed(p.1, a, b))
  }

  /** A table a new one references exists already, or is the new one itself. */
  predicate CanMake(tables: map<string, PgTable>, d: Declared) {
    forall j | 0 <= j < |d.refs| && d.refs[j] != "" && d.refs[j] != d.shape.name :: d.refs[j] in tables
  }

  predicate Referenced(refs: set<(string, string)>, name: string) { exists p | p in refs :: p.1 == name && p.0 != name }

  /** A shape Postgres can make a table of: one key at most, and defaults that read as their column's type. */
  predicate Declarable(t: Table) {
    && (forall i, j | 0 <= i < j < |t.columns| && t.columns[i].pk && t.columns[j].pk ::
          !t.columns[i].def.sqlType.keyed || !t.columns[j].def.sqlType.keyed)
    && (t.primaryKey == [] || forall i | 0 <= i < |t.columns| && t.columns[i].pk :: !t.columns[i].def.sqlType.keyed)
    && (forall i | 0 <= i < |t.columns| :: ReadsAs(t.columns[i].def.fallback, t.columns[i].def.sqlType))
  }

  /** A table that another one references cannot be dropped; an index name is taken whichever table has it. */
  function ExecuteDb(db: PgDb, s: DbStep): Option<PgDb> {
    match s
    case RenameTo(a, b) =>
      if a in db.tables && b !in db.tables then Some(PgDb(RenamedRow(db.tables, a, b), MovedRefs(db.refs, a, b))) else None
    case Make(d) =>
      if d.shape.name !in db.tables && CanMake(db.tables, d) && Declarable(d.shape)
      then Some(PgDb(db.tables[d.shape.name := PgTable(ShapeMap(d.shape.columns), map[])], db.refs + OwnRefs(d))) else None
    case Drop(name) =>
      if Referenced(db.refs, name) then None else Some(PgDb(db.tables - {name}, set p | p in db.refs && p.0 != name))
    case Inside(name, step) =>
      if name !in db.tables then None
      else match ExecutePg(db.tables[name], step, OtherIndexes(db, name))
        case None => None
        case Some(t) => Some(db.(tables := db.tables[name := t]))
  }

  function RunDb(db: PgDb, ss: seq<DbStep>): Option<PgDb>
    decreases |ss|
  {
    if ss == [] then Some(db)
    else match ExecuteDb(db, ss[0]) case None => None case Some(next) => RunDb(next, ss[1..])
  }

  lemma {:induction false} DbJoined(db: PgDb, a: seq<DbStep>, b: seq<DbStep>)
    ensures RunDb(db, a + b) == match RunDb(db, a) case None => None case Some(next) => RunDb(next, b)
    decreases |a|
  {
    hide ExecuteDb;
    if a == [] {
      assert a + b == b;
    } else {
      assert (a + b)[1..] == a[1..] + b;
      match ExecuteDb(db, a[0])
      case None =>
      case Some(next) => DbJoined(next, a[1..], b);
    }
  }

  lemma OneStep(db: PgDb, s: DbStep)
    ensures RunDb(db, [s]) == ExecuteDb(db, s)
  {
    hide ExecuteDb;
    assert [s][1..] == [];
  }

  lemma NoSteps(db: PgDb)
    ensures RunDb(db, []) == Some(db)
  {
  }

  // ---- What is emitted ----------------------------------------------------------------------

  /** Two schemas and the table renames between them. */
  datatype Change = Change(olds: seq<Declared>, news: seq<Declared>, renames: seq<Rename>)

  const NO_DEF := Def(SqlType("", false, {}, {}, {}, {}), false, Null, [], NoReference)

  /** A table marker follows the rules of a column marker, and only the two names matter. */
  function AsColumns(ds: seq<Declared>): (cs: seq<Column>)
    ensures |cs| == |ds| && forall i | 0 <= i < |ds| :: cs[i].name == ds[i].shape.name && cs[i].renamedFrom == ds[i].renamedFrom
  {
    seq(|ds|, i requires 0 <= i < |ds| => Column(ds[i].shape.name, false, NO_DEF, ds[i].renamedFrom))
  }

  function ChangeOf(olds: seq<Declared>, news: seq<Declared>): Change {
    Change(olds, news, Markers(AsColumns(olds), AsColumns(news), |news|))
  }

  /** The renames in the order of the old schema. */
  function InOldOrder(ch: Change, n: nat): seq<Rename>
    requires n <= |ch.olds|
  {
    if n == 0 then []
    else
      var name := ch.olds[n - 1].shape.name;
      InOldOrder(ch, n - 1) + if Claimed(ch.renames, name) then [Rename(name, Lookup(ch.renames, name))] else []
  }

  function RenameTables(renames: seq<Rename>): (ss: seq<DbStep>)
    ensures |ss| == |renames| && forall i | 0 <= i < |ss| :: ss[i] == RenameTo(renames[i].was, renames[i].becomes)
  {
    seq(|renames|, i requires 0 <= i < |renames| => RenameTo(renames[i].was, renames[i].becomes))
  }

  function RenameBack(renames: seq<Rename>): (ss: seq<DbStep>)
    ensures |ss| == |renames| && forall i | 0 <= i < |ss| :: ss[i] == RenameTo(renames[i].becomes, renames[i].was)
  {
    seq(|renames|, i requires 0 <= i < |renames| => RenameTo(renames[i].becomes, renames[i].was))
  }

  function Wrapped(name: string, ss: seq<Step>): (ws: seq<DbStep>)
    ensures |ws| == |ss| && forall i | 0 <= i < |ws| :: ws[i] == Inside(name, ss[i])
  {
    seq(|ss|, i requires 0 <= i < |ss| => Inside(name, ss[i]))
  }

  function MakeIndexes(xs: seq<Index>, n: nat): seq<Step>
    requires n <= |xs|
  {
    if n == 0 then [] else MakeIndexes(xs, n - 1) + [MakeIndex(xs[n - 1])]
  }

  function Whole(d: Declared): seq<DbStep> { [Make(d)] + Wrapped(d.shape.name, MakeIndexes(d.shape.indexes, |d.shape.indexes|)) }

  /** The old table a name stands for after the renames. */
  function OldOf(ch: Change, title: string): Option<Declared> { Among(ch.olds, ch.renames, |ch.olds|, title) }

  function MakeSteps(ch: Change, n: nat): seq<DbStep>
    requires n <= |ch.news|
  {
    if n == 0 then []
    else MakeSteps(ch, n - 1) + if OldOf(ch, ch.news[n - 1].shape.name).None? then Whole(ch.news[n - 1]) else []
  }

  function UnmakeSteps(ch: Change, n: nat): seq<DbStep>
    requires n <= |ch.news|
  {
    if n == 0 then []
    else UnmakeSteps(ch, n - 1) + if OldOf(ch, ch.news[n - 1].shape.name).None? then [Drop(ch.news[n - 1].shape.name)] else []
  }

  /** The old tables under their new names, with the references they declare. */
  function Retitled(ch: Change): (ts: seq<DropOrder.Table>)
    ensures |ts| == |ch.olds|
    ensures forall i | 0 <= i < |ts| :: ts[i] == DropOrder.Table(Lookup(ch.renames, ch.olds[i].shape.name), ch.olds[i].refs)
  {
    seq(|ch.olds|, i requires 0 <= i < |ch.olds| => DropOrder.Table(Lookup(ch.renames, ch.olds[i].shape.name), ch.olds[i].refs))
  }

  function Gone(ch: Change): seq<DropOrder.Table> { DropOrder.Dropped(Retitled(ch), Titles(ch.news)) }

  function DropSteps(order: seq<DropOrder.Table>): (ss: seq<DbStep>)
    ensures |ss| == |order| && forall i | 0 <= i < |ss| :: ss[i] == Drop(order[i].name)
  {
    seq(|order|, i requires 0 <= i < |order| => Drop(order[i].name))
  }

  function RemakeSteps(ch: Change, order: seq<DropOrder.Table>, n: nat): seq<DbStep>
    requires n <= |order|
  {
    if n == 0 then []
    else
      var o := OldOf(ch, order[n - 1].name);
      RemakeSteps(ch, order, n - 1) + if o.Some? then Whole(o.value) else []
  }

  function ColumnRenames(o: Declared, d: Declared): seq<Rename> { Markers(o.shape.columns, d.shape.columns, |d.shape.columns|) }

  function DiffSteps(ch: Change, n: nat): seq<DbStep>
    requires n <= |ch.news|
  {
    if n == 0 then []
    else
      var d := ch.news[n - 1];
      var o := OldOf(ch, d.shape.name);
      DiffSteps(ch, n - 1)
      + if o.Some? then Wrapped(d.shape.name, UpList(o.value.shape, d.shape, ColumnRenames(o.value, d))) else []
  }

  function UndiffSteps(ch: Change, n: nat): seq<DbStep>
    requires n <= |ch.news|
  {
    if n == 0 then []
    else
      var d := ch.news[n - 1];
      var o := OldOf(ch, d.shape.name);
      UndiffSteps(ch, n - 1)
      + if o.Some? then Wrapped(d.shape.name, DownElements(o.value.shape, d.shape, ColumnRenames(o.value, d))) else []
  }

  function UpDb(ch: Change, order: seq<DropOrder.Table>): seq<DbStep> {
    RenameTables(InOldOrder(ch, |ch.olds|)) + (MakeSteps(ch, |ch.news|) + (DropSteps(order) + DiffSteps(ch, |ch.news|)))
  }

  function DownDb(ch: Change, order: seq<DropOrder.Table>): seq<DbStep> {
    Reverse(RenameBack(InOldOrder(ch, |ch.olds|)) + (UnmakeSteps(ch, |ch.news|) + (RemakeSteps(ch, order, |order|) + UndiffSteps(ch, |ch.news|))))
  }

  /** Markers that do not clash rename each old table once, to a name only the new schema has. */
  lemma MarkedAccepted(olds: seq<Declared>, news: seq<Declared>)
    requires DistinctTitles(news) && NoClash(AsColumns(olds), AsColumns(news), |news|)
    ensures Accepted(Titles(olds), ChangeOf(olds, news).renames)
  {
    MarkersAccepted(AsColumns(olds), AsColumns(news), |news|);
    assert ColumnNames(AsColumns(olds)) == Titles(olds);
  }

  lemma RetitledDistinct(ch: Change)
    requires DistinctTitles(ch.olds) && Accepted(Titles(ch.olds), ch.renames)
    ensures DropOrder.DistinctNames(Retitled(ch))
  {
    forall i, j | 0 <= i < j < |ch.olds| ensures Lookup(ch.renames, ch.olds[i].shape.name) != Lookup(ch.renames, ch.olds[j].shape.name) {
      if Lookup(ch.renames, ch.olds[i].shape.name) == Lookup(ch.renames, ch.olds[j].shape.name) {
        LookupInjective(Titles(ch.olds), ch.renames, ch.olds[i].shape.name, ch.olds[j].shape.name);
      }
    }
  }

  // ---- The emitting loops -------------------------------------------------------------------

  datatype Outcome = MarkersClash | Emitted(up: seq<DbStep>, down: seq<DbStep>)

  /** Table markers conflict, or the column markers of a table both schemas have. */
  ghost predicate AnyConflict(ch: Change) {
    || Conflict(AsColumns(ch.olds), AsColumns(ch.news))
    || exists i | 0 <= i < |ch.news| :: TableConflict(ch, i)
  }

  ghost predicate TableConflict(ch: Change, i: nat)
    requires i < |ch.news|
  {
    var o := OldOf(ch, ch.news[i].shape.name);
    o.Some? && Conflict(o.value.shape.columns, ch.news[i].shape.columns)
  }

  method EmitTableRenames(ch: Change) returns (up: seq<DbStep>, down: seq<DbStep>)
    ensures up == RenameTables(InOldOrder(ch, |ch.olds|)) && down == RenameBack(InOldOrder(ch, |ch.olds|))
  {
    hide Claimed, Lookup;
    up, down := [], [];
    for i := 0 to |ch.olds|
      invariant up == RenameTables(InOldOrder(ch, i)) && down == RenameBack(InOldOrder(ch, i))
    {
      var name := ch.olds[i].shape.name;
      if Claimed(ch.renames, name) {
        var to := Lookup(ch.renames, name);
        up, down := up + [RenameTo(name, to)], down + [RenameTo(to, name)];
      }
    }
  }

  /** A table and its indexes. */
  method EmitWhole(d: Declared) returns (ss: seq<DbStep>)
    ensures ss == Whole(d)
  {
    ss := [Make(d)];
    for i := 0 to |d.shape.indexes|
      invariant ss == [Make(d)] + Wrapped(d.shape.name, MakeIndexes(d.shape.indexes, i))
    {
      ss := ss + [Inside(d.shape.name, MakeIndex(d.shape.indexes[i]))];
    }
  }

  method EmitMakes(ch: Change) returns (up: seq<DbStep>, down: seq<DbStep>)
    ensures up == MakeSteps(ch, |ch.news|) && down == UnmakeSteps(ch, |ch.news|)
  {
    hide OldOf, Whole;
    up, down := [], [];
    for i := 0 to |ch.news|
      invariant up == MakeSteps(ch, i) && down == UnmakeSteps(ch, i)
    {
      if OldOf(ch, ch.news[i].shape.name).None? {
        var whole := EmitWhole(ch.news[i]);
        up, down := up + whole, down + [Drop(ch.news[i].shape.name)];
      }
    }
  }

  method EmitDrops(ch: Change, order: seq<DropOrder.Table>) returns (up: seq<DbStep>, down: seq<DbStep>)
    ensures up == DropSteps(order) && down == RemakeSteps(ch, order, |order|)
  {
    hide OldOf, Whole;
    up, down := [], [];
    for i := 0 to |order|
      invariant up == DropSteps(order)[..i] && down == RemakeSteps(ch, order, i)
    {
      up := up + [Drop(order[i].name)];
      var o := OldOf(ch, order[i].name);
      if o.Some? {
        var whole := EmitWhole(o.value);
        down := down + whole;
      }
    }
  }

  /** The tables both schemas have, up to the first whose markers conflict. */
  method EmitDiffs(ch: Change) returns (ok: bool, up: seq<DbStep>, down: seq<DbStep>)
    ensures ok <==> forall i | 0 <= i < |ch.news| :: !TableConflict(ch, i)
    ensures ok ==> up == DiffSteps(ch, |ch.news|) && down == UndiffSteps(ch, |ch.news|)
  {
    hide OldOf, Conflict, Markers, UpList, DownElements, NoClash;
    ok, up, down := true, [], [];
    for i := 0 to |ch.news|
      invariant ok && up == DiffSteps(ch, i) && down == UndiffSteps(ch, i)
      invariant forall j | 0 <= j < i :: !TableConflict(ch, j)
    {
      var d := ch.news[i];
      var o := OldOf(ch, d.shape.name);
      if o.Some? {
        var resolved := ResolveColumnRenames(o.value.shape.columns, d.shape.columns);
        ClashIsConflict(o.value.shape.columns, d.shape.columns);
        if !resolved.Resolved? {
          assert TableConflict(ch, i);
          ok := false;
          return;
        }
        var tu, td := EmitDiff(o.value.shape, d.shape, resolved.renames);
        up, down := up + Wrapped(d.shape.name, tu), down + Wrapped(d.shape.name, td);
      }
    }
  }

  /** Table renames, new tables, dropped tables, changed tables; the down list reversed as a whole. */
  method DiffSchemas(olds: seq<Declared>, news: seq<Declared>) returns (r: Outcome, order: seq<DropOrder.Table>)
    requires DistinctTitles(olds) && DistinctTitles(news)
    ensures var ch := ChangeOf(olds, news);
            && (r.MarkersClash? <==> AnyConflict(ch))
            && (r.Emitted? ==>
                  && r.up == UpDb(ch, order) && r.down == DownDb(ch, order)
                  && multiset(order) == multiset(Gone(ch))
                  && (DropOrder.SafeOrderOf(order, Gone(ch)) <==> DropOrder.Orderable(Gone(ch))))
  {
    order := [];
    var resolved := ResolveColumnRenames(AsColumns(olds), AsColumns(news));
    ClashIsConflict(AsColumns(olds), AsColumns(news));
    if !resolved.Resolved? { return MarkersClash, order; }
    var ch := Change(olds, news, resolved.renames);
    MarkedAccepted(olds, news);
    RetitledDistinct(ch);
    hide Conflict, NoClash, Markers, Retitled, TableConflict, MakeSteps, UnmakeSteps, DiffSteps, UndiffSteps, RemakeSteps, InOldOrder;
    hide DropOrder.SafeOrderOf, DropOrder.Orderable, DropOrder.Dropped, Titles;
    var renameUp, renameDown := EmitTableRenames(ch);
    var makeUp, makeDown := EmitMakes(ch);
    var sorted := DropOrder.FkSafeDropOrder(Retitled(ch), Titles(news));
    order := sorted;
    var dropUp, dropDown := EmitDrops(ch, sorted);
    var ok, diffUp, diffDown := EmitDiffs(ch);
    if !ok { return MarkersClash, order; }
    var down := Reversed(renameDown + (makeDown + (dropDown + diffDown)));
    r := Emitted(renameUp + (makeUp + (dropUp + diffUp)), down);
  }
}
