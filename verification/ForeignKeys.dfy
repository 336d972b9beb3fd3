/** The foreign key of a changed column. */
module ForeignKeys {
  // The foreign key of a column both schemas have, on Postgres: what the diff emits for a changed reference, and what the
  // table's constraints are after it. The diff knows a constraint by one name only, that of an ALTER of its own; a reference
  // written with its column has the name the database gave it.

  import opened Options
  import opened OrderedSeqs
  import opened Schema
  import opened PgReplay

  datatype Fk = Fk(column: string, reference: Reference)

  /** A table's columns, and its foreign keys by constraint name. */
  datatype Keyed = Keyed(columns: set<string>, fks: map<string, Fk>)

  datatype FkStep = DropFk(name: string) | AddFk(name: string, fk: Fk) | Note

  /** The name the diff gives a column's constraint, and the one the database gives an unnamed one. */
  function FkName(table: string, column: string): string { "fk_" + table + "_" + column }

  function DefaultName(table: string, column: string): string { table + "_" + column + "_fkey" }

  // ---- What Postgres does -------------------------------------------------------------------

  function ExecuteFk(t: Keyed, s: FkStep): Option<Keyed> {
    match s
    case DropFk(name) => Some(t.(fks := t.fks - {name}))
    case AddFk(name, fk) => if fk.column in t.columns && name !in t.fks then Some(t.(fks := t.fks[name := fk])) else None
    case Note => Some(t)
  }

  function RunFks(t: Keyed, ss: seq<FkStep>): Option<Keyed>
    decreases |ss|
  {
    if ss == [] then Some(t) else match ExecuteFk(t, ss[0]) case None => None case Some(next) => RunFks(next, ss[1..])
  }

  /** CREATE TABLE, or ADD COLUMN, with the references written beside the columns. */
  function Inline(table: string, columns: seq<Column>): Keyed {
    Keyed(set i | 0 <= i < |columns| :: columns[i].name, InlineKeys(table, columns, |columns|))
  }

  function InlineKeys(table: string, columns: seq<Column>, n: nat): map<string, Fk>
    requires n <= |columns|
  {
    if n == 0 then map[]
    else
      var before, c := InlineKeys(table, columns, n - 1), columns[n - 1];
      if c.def.references.NoReference? then before else before[DefaultName(table, c.name) := Fk(c.name, c.def.references)]
  }

  // ---- What is emitted ----------------------------------------------------------------------

  /** The statements of one column: up, and down before the reversal. */
  method DiffReference(table: string, o: Column, d: Column) returns (up: seq<FkStep>, down: seq<FkStep>)
    ensures up == UpSteps(table, o, d) && down == DownSteps(table, o, d)
  {
    up, down := [], [];
    var was, becomes := o.def.references, d.def.references;
    if was != becomes {
      var name := FkName(table, d.name);
      if was.Reference? {
        up := up + [DropFk(name)];
        down := down + [AddFk(FkName(table, o.name), Fk(o.name, was))];
      }
      if becomes.Reference? {
        up := up + [DropFk(name)];
        up := up + [AddFk(name, Fk(d.name, becomes))];
        down := down + [DropFk(name)];
        down := down + [Note];
      }
    }
  }

  function UpSteps(table: string, o: Column, d: Column): seq<FkStep> {
    var was, becomes, name := o.def.references, d.def.references, FkName(table, d.name);
    if was == becomes then []
    else (if was.Reference? then [DropFk(name)] else [])
         + if becomes.Reference? then [DropFk(name), AddFk(name, Fk(d.name, becomes))] else []
  }

  function DownSteps(table: string, o: Column, d: Column): seq<FkStep> {
    var was, becomes, name := o.def.references, d.def.references, FkName(table, d.name);
    if was == becomes then []
    else (if was.Reference? then [AddFk(FkName(table, o.name), Fk(o.name, was))] else [])
         + if becomes.Reference? then [DropFk(name), Note] else []
  }

  // ---- What is left -------------------------------------------------------------------------

  /** What a column references. */
  ghost function ReferencesOf(t: Keyed, column: string): set<Reference> {
    set k | k in t.fks && t.fks[k].column == column :: t.fks[k].reference
  }

  function Declared(c: Column): set<Reference> { if c.def.references.Reference? then {c.def.references} else {} }

  /** Some constraint of the column, under a name other than the diff's, says something the new column does not. */
  ghost predicate Stale(t: Keyed, table: string, c: Column) {
    exists k | k in t.fks && k != FkName(table, c.name) :: t.fks[k].column == c.name && t.fks[k].reference !in Declared(c)
  }

  lemma {:induction false} FksJoined(t: Keyed, a: seq<FkStep>, b: seq<FkStep>)
    ensures RunFks(t, a + b) == match RunFks(t, a) case None => None case Some(next) => RunFks(next, b)
    decreases |a|
  {
    if a == [] {
      assert a + b == b;
    } else {
      assert (a + b)[1..] == a[1..] + b;
      match ExecuteFk(t, a[0])
      case None =>
      case Some(next) => FksJoined(next, a[1..], b);
    }
  }

  lemma OneFk(t: Keyed, s: FkStep)
    ensures RunFks(t, [s]) == ExecuteFk(t, s)
  {
    assert [s][1..] == [];
  }

  lemma TwoFks(t: Keyed, a: FkStep, b: FkStep)
    ensures RunFks(t, [a, b]) == match ExecuteFk(t, a) case None => None case Some(next) => ExecuteFk(next, b)
  {
    assert [a, b] == [a] + [b];
    FksJoined(t, [a], [b]);
    OneFk(t, a);
    if ExecuteFk(t, a).Some? { OneFk(ExecuteFk(t, a).value, b); }
  }

  /** A changed reference: the constraint of the diff's own name is replaced, and every other one stands. */
  lemma ChangedReference(t: Keyed, table: string, o: Column, d: Column)
    requires d.name in t.columns && o.def.references != d.def.references
    ensures var name, r := FkName(table, d.name), RunFks(t, UpSteps(table, o, d));
            && r.Some? && r.value.columns == t.columns
            && r.value.fks == if d.def.references.Reference? then t.fks[name := Fk(d.name, d.def.references)] else t.fks - {name}
  {
    var name := FkName(table, d.name);
    var drop, more := [DropFk(name)], [DropFk(name), AddFk(name, Fk(d.name, d.def.references))];
    OneFk(t, DropFk(name));
    TwoFks(t, DropFk(name), AddFk(name, Fk(d.name, d.def.references)));
    var without := t.(fks := t.fks - {name});
    assert without.fks - {name} == without.fks;
    TwoFks(without, DropFk(name), AddFk(name, Fk(d.name, d.def.references)));
    assert (t.fks - {name})[name := Fk(d.name, d.def.references)] == t.fks[name := Fk(d.name, d.def.references)];
    hide FkName;
    if o.def.references.Reference? {
      if d.def.references.Reference? {
        assert UpSteps(table, o, d) == drop + more;
        FksJoined(t, drop, more);
      } else {
        assert UpSteps(table, o, d) == drop;
      }
    } else {
      assert UpSteps(table, o, d) == more;
    }
  }

  /** After it the column references exactly what the new schema declares if and only if no constraint of another name says otherwise. */
  lemma ReferencesAsDeclared(t: Keyed, table: string, o: Column, d: Column)
    requires d.name in t.columns && o.def.references != d.def.references
    ensures RunFks(t, UpSteps(table, o, d)).Some?
    ensures ReferencesOf(RunFks(t, UpSteps(table, o, d)).value, d.name) == Declared(d) <==> !Stale(t, table, d)
  {
    ChangedReference(t, table, o, d);
    var r, name := RunFks(t, UpSteps(table, o, d)).value, FkName(table, d.name);
    hide RunFks, UpSteps, FkName;
    if d.def.references.Reference? { assert r.fks[name].reference in ReferencesOf(r, d.name); }
    if k :| k in t.fks && k != name && t.fks[k].column == d.name && t.fks[k].reference !in Declared(d) {
      assert r.fks[k] == t.fks[k];
      assert t.fks[k].reference in ReferencesOf(r, d.name);
    } else {
      forall x | x in ReferencesOf(r, d.name) ensures x in Declared(d) {
        var k :| k in r.fks && r.fks[k].column == d.name && r.fks[k].reference == x;
        if k != name { assert r.fks[k] == t.fks[k]; }
      }
    }
  }

  lemma {:induction false} InlineHas(table: string, columns: seq<Column>, n: nat, i: nat)
    requires i < n <= |columns| && DistinctColumns(columns) && columns[i].def.references.Reference?
    ensures DefaultName(table, columns[i].name) in InlineKeys(table, columns, n)
    ensures InlineKeys(table, columns, n)[DefaultName(table, columns[i].name)] == Fk(columns[i].name, columns[i].def.references)
  {
    if i < n - 1 {
      InlineHas(table, columns, n - 1, i);
      DefaultNamesDiffer(table, columns[i].name, columns[n - 1].name);
    }
  }

  lemma DefaultNamesDiffer(table: string, a: string, b: string)
    requires a != b
    ensures DefaultName(table, a) != DefaultName(table, b)
  {
    var x, y := DefaultName(table, a), DefaultName(table, b);
    if |a| == |b| {
      SomeDifference(a, b);
      var i :| 0 <= i < |a| && a[i] != b[i];
      assert x[|table| + 1 + i] == a[i] && y[|table| + 1 + i] == b[i];
    }
  }

  lemma SomeDifference(a: string, b: string)
    requires a != b && |a| == |b|
    ensures exists i | 0 <= i < |a| :: a[i] != b[i]
  {
    assert (forall i | 0 <= i < |a| :: a[i] == b[i]) ==> a == b;
  }

  /** A reference that was written with its column stays when the new schema drops or changes it. */
  lemma InlineReferenceStays(table: string, columns: seq<Column>, i: nat, d: Column)
    requires i < |columns| && DistinctColumns(columns) && columns[i].def.references.Reference?
    requires d.name == columns[i].name && d.def.references != columns[i].def.references
    ensures var r := RunFks(Inline(table, columns), UpSteps(table, columns[i], d));
            r.Some? && columns[i].def.references in ReferencesOf(r.value, d.name)
  {
    var t, own := Inline(table, columns), DefaultName(table, d.name);
    InlineHas(table, columns, |columns|, i);
    assert |own| != |FkName(table, d.name)|;
    assert d.name in t.columns;
    ChangedReference(t, table, columns[i], d);
    hide RunFks, UpSteps, FkName, DefaultName;
    var r := RunFks(t, UpSteps(table, columns[i], d)).value;
    assert r.fks[own].reference == columns[i].def.references;
  }

  // ---- Going back ---------------------------------------------------------------------------

  /** What a column that keeps its name holds after up and down: the old reference, now under the diff's name. */
  lemma ReferenceBack(t: Keyed, table: string, o: Column, d: Column)
    requires d.name == o.name && o.name in t.columns && o.def.references != d.def.references
    ensures var up := RunFks(t, UpSteps(table, o, d));
            up.Some? &&
            var down, name := RunFks(up.value, Reverse(DownSteps(table, o, d))), FkName(table, o.name);
            && down.Some? && down.value.columns == t.columns
            && down.value.fks == (if o.def.references.Reference? then t.fks[name := Fk(o.name, o.def.references)] else t.fks - {name})
  {
    var name := FkName(table, o.name);
    var was, becomes := o.def.references, d.def.references;
    ChangedReference(t, table, o, d);
    var u := RunFks(t, UpSteps(table, o, d)).value;
    BackSteps(table, o, d);
    hide FkName, UpSteps, DownSteps, Reverse;
    var without := t.(fks := t.fks - {name});
    if becomes.Reference? {
      assert u.fks - {name} == without.fks;
      TwoFks(u, Note, DropFk(name));
    } else {
      assert u == without;
      assert RunFks(u, []) == Some(u);
    }
    FksJoined(u, if becomes.Reference? then [Note, DropFk(name)] else [], if was.Reference? then [AddFk(name, Fk(o.name, was))] else []);
    OneFk(without, AddFk(name, Fk(o.name, was)));
    assert RunFks(without, []) == Some(without);
    assert without.fks[name := Fk(o.name, was)] == t.fks[name := Fk(o.name, was)];
  }

  lemma BackSteps(table: string, o: Column, d: Column)
    requires o.def.references != d.def.references
    ensures Reverse(DownSteps(table, o, d)) ==
            (if d.def.references.Reference? then [Note, DropFk(FkName(table, d.name))] else [])
            + if o.def.references.Reference? then [AddFk(FkName(table, o.name), Fk(o.name, o.def.references))] else []
  {
    hide FkName;
  }

  /** Up and down leave the constraints as they were exactly when the old reference was under the diff's name, or there was none. */
  lemma {:induction false} ReferenceRoundTrip(t: Keyed, table: string, o: Column, d: Column)
    requires d.name == o.name && o.name in t.columns && o.def.references != d.def.references
    ensures var up := RunFks(t, UpSteps(table, o, d)); var name := FkName(table, o.name);
            up.Some? &&
            (RunFks(up.value, Reverse(DownSteps(table, o, d))) == Some(t) <==>
             if o.def.references.Reference? then Get(t.fks, name) == Some(Fk(o.name, o.def.references)) else name !in t.fks)
  {
    ReferenceBack(t, table, o, d);
    var name := FkName(table, o.name);
    if Get(t.fks, name) == Some(Fk(o.name, o.def.references)) { assert t.fks[name := Fk(o.name, o.def.references)] == t.fks; }
    if name !in t.fks { assert t.fks - {name} == t.fks; }
  }

  /** A changed reference of a renamed column cannot be put back: the down list names the column as it was, before it is again. */
  lemma RenamedReferenceStopsDown(t: Keyed, table: string, o: Column, d: Column)
    requires o.def.references.Reference? && o.def.references != d.def.references && o.name !in t.columns
    ensures RunFks(t, Reverse(DownSteps(table, o, d))) == None
  {
    BackSteps(table, o, d);
    var head := if d.def.references.Reference? then [Note, DropFk(FkName(table, d.name))] else [];
    var last := AddFk(FkName(table, o.name), Fk(o.name, o.def.references));
    FksJoined(t, head, [last]);
    TwoFks(t, Note, DropFk(FkName(table, d.name)));
    assert RunFks(t, []) == Some(t);
    if RunFks(t, head).Some? { OneFk(RunFks(t, head).value, last); }
  }
}
