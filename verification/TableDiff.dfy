/** The diff of a table that SQLite rebuilds. */
module TableDiff {
  // Renames and one rebuild up, one rebuild and the renames undone down.

  import opened Options
  import opened OrderedSeqs
  import opened Schema
  import opened Sqlite
  import opened Renames
  import opened Rebuild

  // ---- Relabelling --------------------------------------------------------------------------

  function RelabelColumn(c: Column, a: string, b: string): Column { c.(name := Renamed(c.name, a, b)) }

  function RelabelOne(t: Table, a: string, b: string): Table {
    t.(columns := seq(|t.columns|, i requires 0 <= i < |t.columns| => RelabelColumn(t.columns[i], a, b)),
       indexes := seq(|t.indexes|, i requires 0 <= i < |t.indexes| => t.indexes[i].(columns := RenamedAll(t.indexes[i].columns, a, b))),
       primaryKey := RenamedAll(t.primaryKey, a, b))
  }

  function RelabelAll(t: Table, renames: seq<Rename>): Table
    decreases |renames|
  {
    if renames == [] then t else RelabelAll(RelabelOne(t, renames[0].was, renames[0].becomes), renames[1..])
  }

  // ---- The two lists ------------------------------------------------------------------------

  function RenameSteps(name: string, renames: seq<Rename>): seq<Statement>
    decreases |renames|
  {
    if renames == [] then [] else [RenameColumn(name, renames[0].was, renames[0].becomes)] + RenameSteps(name, renames[1..])
  }

  /** The renames undone, the last first. */
  function BackSteps(name: string, renames: seq<Rename>): seq<Statement>
    decreases |renames|
  {
    if renames == [] then [] else BackSteps(name, renames[1..]) + [RenameColumn(name, renames[0].becomes, renames[0].was)]
  }

  function UpSteps(before: Table, after: Table, renames: seq<Rename>): seq<Statement> {
    RenameSteps(after.name, renames) + RebuildSteps(after, RelabelAll(before, renames))
  }

  /** The down list, already reversed. */
  function DownSteps(before: Table, after: Table, renames: seq<Rename>): seq<Statement> {
    RebuildSteps(RelabelAll(before, renames), after) + BackSteps(after.name, renames)
  }

  // ---- The code's own relabelling -----------------------------------------------------------

  function LookedUp(names: seq<string>, renames: seq<Rename>): (r: seq<string>)
    ensures |r| == |names| && forall i | 0 <= i < |names| :: r[i] == Lookup(renames, names[i])
  {
    seq(|names|, i requires 0 <= i < |names| => Lookup(renames, names[i]))
  }

  function Relabelled(t: Table, renames: seq<Rename>): Table {
    t.(columns := seq(|t.columns|, i requires 0 <= i < |t.columns| => t.columns[i].(name := Lookup(renames, t.columns[i].name))),
       indexes := seq(|t.indexes|, i requires 0 <= i < |t.indexes| => t.indexes[i].(columns := LookedUp(t.indexes[i].columns, renames))),
       primaryKey := LookedUp(t.primaryKey, renames))
  }

  /** A renamed column that carries a check cannot be rebuilt. */
  predicate Refused(t: Table, renames: seq<Rename>) {
    exists i | 0 <= i < |t.columns| :: Claimed(renames, t.columns[i].name) && t.columns[i].def.check != []
  }

  method RelabelColumns(t: Table, renames: seq<Rename>) returns (r: Option<Table>)
    ensures r.None? <==> Refused(t, renames)
    ensures r.Some? ==> r.value == Relabelled(t, renames)
  {
    var columns := new Column[|t.columns|](i requires 0 <= i < |t.columns| => t.columns[i]);
    for i := 0 to columns.Length
      invariant forall j | i <= j < columns.Length :: columns[j] == t.columns[j]
      invariant forall j | 0 <= j < i :: columns[j] == t.columns[j].(name := Lookup(renames, t.columns[j].name))
      invariant forall j | 0 <= j < i :: !(Claimed(renames, t.columns[j].name) && t.columns[j].def.check != [])
    {
      if Claimed(renames, columns[i].name) {
        if columns[i].def.check != [] { return None; }
        columns[i] := columns[i].(name := Lookup(renames, columns[i].name));
      } else {
        NotLookedUp(renames, columns[i].name);
      }
    }
    var indexes: seq<Index> := [];
    for i := 0 to |t.indexes|
      invariant |indexes| == i && forall j | 0 <= j < i :: indexes[j] == t.indexes[j].(columns := LookedUp(t.indexes[j].columns, renames))
    {
      indexes := indexes + [t.indexes[i].(columns := LookedUp(t.indexes[i].columns, renames))];
    }
    r := Some(t.(columns := columns[..], indexes := indexes, primaryKey := LookedUp(t.primaryKey, renames)));
    assert r.value.columns == Relabelled(t, renames).columns && r.value.indexes == Relabelled(t, renames).indexes;
  }

  lemma {:induction false} NotLookedUp(renames: seq<Rename>, name: string)
    requires !Claimed(renames, name)
    ensures Lookup(renames, name) == name
    decreases |renames|
  {
    if renames != [] {
      forall i | 0 <= i < |renames[1..]| ensures renames[1..][i].was != name { assert renames[1..][i] == renames[i + 1]; }
      NotLookedUp(renames[1..], name);
    }
  }

  lemma {:induction false} RelabelAllAt(t: Table, renames: seq<Rename>)
    ensures var r := RelabelAll(t, renames);
            && r.name == t.name && |r.columns| == |t.columns| && |r.indexes| == |t.indexes| && |r.primaryKey| == |t.primaryKey|
            && (forall i | 0 <= i < |t.columns| :: r.columns[i] == t.columns[i].(name := After(renames, t.columns[i].name)))
            && (forall i | 0 <= i < |t.primaryKey| :: r.primaryKey[i] == After(renames, t.primaryKey[i]))
    decreases |renames|
  {
    if renames != [] { RelabelAllAt(RelabelOne(t, renames[0].was, renames[0].becomes), renames[1..]); }
  }

  lemma {:induction false} RelabelAllIndexAt(t: Table, renames: seq<Rename>, i: nat)
    requires i < |t.indexes|
    ensures var r := RelabelAll(t, renames);
            && i < |r.indexes| && |r.indexes[i].columns| == |t.indexes[i].columns|
            && r.indexes[i] == t.indexes[i].(columns := r.indexes[i].columns)
            && (forall j | 0 <= j < |t.indexes[i].columns| :: r.indexes[i].columns[j] == After(renames, t.indexes[i].columns[j]))
    decreases |renames|
  {
    if renames != [] { RelabelAllIndexAt(RelabelOne(t, renames[0].was, renames[0].becomes), renames[1..], i); }
  }

  /** Relabelling by one lookup for each name is applying the accepted renames in turn, in any table that is sound. */
  lemma RelabelledIsRelabelAll(t: Table, renames: seq<Rename>)
    requires WellFormed(t) && Accepted(ColumnNames(t.columns), renames)
    ensures Relabelled(t, renames) == RelabelAll(t, renames)
  {
    var once, turns := Relabelled(t, renames), RelabelAll(t, renames);
    RelabelAllAt(t, renames);
    forall c | c in ColumnNames(t.columns) ensures Lookup(renames, c) == After(renames, c) { LookupIsAfter(ColumnNames(t.columns), renames, c); }
    hide Accepted, RelabelAll, Lookup, After;
    forall i | 0 <= i < |t.columns| ensures t.columns[i].name in ColumnNames(t.columns) { }
    assert once.columns == turns.columns;
    assert once.primaryKey == turns.primaryKey;
    forall i | 0 <= i < |t.indexes| ensures once.indexes[i] == turns.indexes[i] {
      RelabelAllIndexAt(t, renames, i);
      assert once.indexes[i].columns == turns.indexes[i].columns;
    }
    assert once.indexes == turns.indexes;
  }

  // ---- The diff of one table ----------------------------------------------------------------

  datatype Diffed =
    | Conflicting                                                    // markers conflict
    | Unsafe                                                         // a renamed column carries a check
    | InPlace                                                        // no column changed its definition
    | Rebuilding(up: seq<Statement>, down: seq<Statement>)

  function Flat(elements: seq<seq<Statement>>): seq<Statement> { if elements == [] then [] else elements[0] + Flat(elements[1..]) }

  lemma {:induction false} FlatJoined(a: seq<seq<Statement>>, b: seq<seq<Statement>>)
    ensures Flat(a + b) == Flat(a) + Flat(b)
  {
    if a == [] {
      assert a + b == b;
    } else {
      assert (a + b)[1..] == a[1..] + b;
      FlatJoined(a[1..], b);
    }
  }

  function Undo(name: string, renames: seq<Rename>): (r: seq<seq<Statement>>)
    ensures |r| == |renames| && forall i | 0 <= i < |r| :: r[i] == [RenameColumn(name, renames[i].becomes, renames[i].was)]
  {
    seq(|renames|, i requires 0 <= i < |renames| => [RenameColumn(name, renames[i].becomes, renames[i].was)])
  }

  lemma {:induction false} UndoReversed(name: string, renames: seq<Rename>)
    ensures Flat(Reverse(Undo(name, renames))) == BackSteps(name, renames)
    decreases |renames|
  {
    if renames != [] {
      var last := [RenameColumn(name, renames[0].becomes, renames[0].was)];
      UndoReversed(name, renames[1..]);
      assert Reverse(Undo(name, renames)) == Reverse(Undo(name, renames[1..])) + [last];
      FlatJoined(Reverse(Undo(name, renames[1..])), [last]);
      assert Flat([last]) == last;
    }
  }

  /** A column of the new table whose old self has another definition. */
  predicate Redefined(before: Table, after: Table, renames: seq<Rename>) {
    exists i, j | 0 <= i < |before.columns| && 0 <= j < |after.columns| ::
      Lookup(renames, before.columns[i].name) == after.columns[j].name && before.columns[i].def != after.columns[j].def
  }

  /** The SQLite diff of a table both schemas have: one rebuild when a definition changed, its down list reversed as a whole. */
  method DiffTable(before: Table, after: Table) returns (d: Diffed)
    requires before.name == after.name && WellFormed(before) && DistinctColumns(after.columns)
    ensures d.Conflicting? <==> Conflict(before.columns, after.columns)
    ensures !d.Conflicting? ==>
              var renames := Markers(before.columns, after.columns, |after.columns|);
              && Accepted(ColumnNames(before.columns), renames)
              && (d.InPlace? <==>
                    forall i, j | 0 <= i < |before.columns| && 0 <= j < |after.columns| ::
                      Lookup(renames, before.columns[i].name) == after.columns[j].name ==> before.columns[i].def == after.columns[j].def)
              && (d.Unsafe? <==>
                    && !d.InPlace?
                    && exists i, k | 0 <= i < |before.columns| && 0 <= k < |renames| ::
                         renames[k].was == before.columns[i].name && before.columns[i].def.check != [])
              && (d.Rebuilding? ==> d.up == UpSteps(before, after, renames) && d.down == DownSteps(before, after, renames))
  {
    var resolved := ResolveColumnRenames(before.columns, after.columns);
    ClashIsConflict(before.columns, after.columns);
    if !resolved.Resolved? { return Conflicting; }
    MarkersAccepted(before.columns, after.columns, |after.columns|);
    hide Conflict, NoClash, Accepted, Markers, WellFormed, UpSteps, DownSteps;
    var renames := resolved.renames;
    var rebuild := NeedsRebuild(before, after, renames);
    if !rebuild { return InPlace; }
    var source := RelabelColumns(before, renames);
    if source.None? { return Unsafe; }
    RelabelledIsRelabelAll(before, renames);
    d := EmitRebuild(before, after, renames, source.value);
  }

  method NeedsRebuild(before: Table, after: Table, renames: seq<Rename>) returns (rebuild: bool)
    ensures rebuild == Redefined(before, after, renames)
  {
    rebuild := false;
    for j := 0 to |after.columns|
      invariant rebuild <==> exists i, k | 0 <= i < |before.columns| && 0 <= k < j ::
                  Lookup(renames, before.columns[i].name) == after.columns[k].name && before.columns[i].def != after.columns[k].def
    {
      var nc := after.columns[j];
      for i := 0 to |before.columns|
        invariant rebuild <==>
          || (exists i, k | 0 <= i < |before.columns| && 0 <= k < j ::
                Lookup(renames, before.columns[i].name) == after.columns[k].name && before.columns[i].def != after.columns[k].def)
          || (exists k | 0 <= k < i :: Lookup(renames, before.columns[k].name) == nc.name && before.columns[k].def != nc.def)
      {
        if Lookup(renames, before.columns[i].name) == nc.name && before.columns[i].def != nc.def { rebuild := true; }
      }
    }
  }

  method EmitRenames(name: string, renames: seq<Rename>) returns (up: seq<Statement>, down: seq<seq<Statement>>)
    ensures up == RenameSteps(name, renames) && down == Undo(name, renames)
  {
    up, down := [], [];
    for i := 0 to |renames|
      invariant up + RenameSteps(name, renames[i..]) == RenameSteps(name, renames)
      invariant down == Undo(name, renames)[..i]
    {
      assert renames[i..][0] == renames[i] && renames[i..][1..] == renames[i + 1..];
      up := up + [RenameColumn(name, renames[i].was, renames[i].becomes)];
      down := down + [[RenameColumn(name, renames[i].becomes, renames[i].was)]];
    }
    assert renames[|renames|..] == [];
  }

  /** The rebuild is one element of the down list: reversing the list element by element leaves its own steps in order. */
  lemma DownAssembled(name: string, renames: seq<Rename>, rebuild: seq<Statement>)
    ensures Flat(Reverse(Undo(name, renames) + [rebuild])) == rebuild + BackSteps(name, renames)
  {
    assert Reverse(Undo(name, renames) + [rebuild]) == [rebuild] + Reverse(Undo(name, renames));
    FlatJoined([rebuild], Reverse(Undo(name, renames)));
    assert Flat([rebuild]) == rebuild;
    UndoReversed(name, renames);
  }

  method EmitRebuild(before: Table, after: Table, renames: seq<Rename>, source: Table) returns (d: Diffed)
    requires source == RelabelAll(before, renames) && before.name == after.name
    ensures d == Rebuilding(UpSteps(before, after, renames), DownSteps(before, after, renames))
  {
    hide RebuildSteps, RelabelAll, Flat, Reverse, Undo, BackSteps, RenameSteps;
    var up, down := EmitRenames(after.name, renames);
    var forward := SqliteRebuild(after, source);
    var backward := SqliteRebuild(source, after);
    var reversed := Reversed(down + [backward]);
    DownAssembled(after.name, renames, backward);
    d := Rebuilding(up + forward, Flat(reversed));
  }
}
