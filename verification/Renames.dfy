/** Which markers are renames, and what a set of renames does to a shape and to a live table. */
module Renames {
  import opened Schema

  /** An old name and its new name. */
  datatype Rename = Rename(was: string, becomes: string)

  datatype Resolved = Resolved(renames: seq<Rename>) | Ambiguous(column: string) | ClaimedTwice(column: string)

  // ---- Resolving markers --------------------------------------------------------------------

  /** A marker that applies: it names a column the old table still has. */
  predicate Applies(olds: seq<Column>, c: Column) { c.renamedFrom != "" && Declares(olds, c.renamedFrom) }

  predicate Claimed(renames: seq<Rename>, name: string) { exists i | 0 <= i < |renames| :: renames[i].was == name }

  /** Froms differ and exist; tos differ and are new: no rename lands on a column, so any order gives the same result. */
  ghost predicate Accepted(names: set<string>, renames: seq<Rename>) {
    && (forall i | 0 <= i < |renames| :: renames[i].was in names && renames[i].becomes !in names)
    && (forall i, j | 0 <= i < j < |renames| :: renames[i].was != renames[j].was && renames[i].becomes != renames[j].becomes)
  }

  function ColumnNames(columns: seq<Column>): set<string> { set i | 0 <= i < |columns| :: columns[i].name }

  predicate Mentions(where: seq<Token>, name: string) { exists i | 0 <= i < |where| :: where[i] == Name(name) }

  /** Indexes and key name columns of the table, and no column comes twice. */
  ghost predicate WellFormed(t: Table) {
    && DistinctColumns(t.columns)
    && (forall i, j | 0 <= i < |t.indexes| && 0 <= j < |t.indexes[i].columns| :: t.indexes[i].columns[j] in ColumnNames(t.columns))
    && (forall i | 0 <= i < |t.primaryKey| :: t.primaryKey[i] in ColumnNames(t.columns))
  }

  /** The markers that apply among the first n columns, in order. */
  function Markers(olds: seq<Column>, columns: seq<Column>, n: nat): seq<Rename>
    requires n <= |columns|
  {
    if n == 0 then []
    else
      var c := columns[n - 1];
      Markers(olds, columns, n - 1) + if Applies(olds, c) then [Rename(c.renamedFrom, c.name)] else []
  }

  predicate ClashAt(olds: seq<Column>, columns: seq<Column>, i: nat)
    requires i < |columns|
  {
    Applies(olds, columns[i]) && (Declares(olds, columns[i].name) || Claimed(Markers(olds, columns, i), columns[i].renamedFrom))
  }

  predicate NoClash(olds: seq<Column>, columns: seq<Column>, n: nat)
    requires n <= |columns|
  {
    forall i | 0 <= i < n :: !ClashAt(olds, columns, i)
  }

  method ResolveColumnRenames(olds: seq<Column>, columns: seq<Column>) returns (r: Resolved)
    ensures r.Resolved? <==> NoClash(olds, columns, |columns|)
    ensures r.Resolved? ==> r.renames == Markers(olds, columns, |columns|)
  {
    var renames: seq<Rename> := [];
    for i := 0 to |columns|
      invariant renames == Markers(olds, columns, i) && NoClash(olds, columns, i)
    {
      var nc := columns[i];
      if Applies(olds, nc) {
        if Declares(olds, nc.name) {
          assert ClashAt(olds, columns, i);
          return Ambiguous(nc.name);
        }
        if Claimed(renames, nc.renamedFrom) {
          assert ClashAt(olds, columns, i);
          return ClaimedTwice(nc.name);
        }
        renames := renames + [Rename(nc.renamedFrom, nc.name)];
      }
    }
    r := Resolved(renames);
  }

  lemma {:induction false} MarkerFrom(olds: seq<Column>, columns: seq<Column>, n: nat, r: Rename)
    requires n <= |columns|
    ensures r in Markers(olds, columns, n) <==>
            exists i | 0 <= i < n :: Applies(olds, columns[i]) && r == Rename(columns[i].renamedFrom, columns[i].name)
  {
    if n > 0 { MarkerFrom(olds, columns, n - 1, r); }
  }

  /** Markers conflict: one lands on a column the old table has, or two claim the same column. */
  ghost predicate Conflict(olds: seq<Column>, columns: seq<Column>) {
    || (exists i | 0 <= i < |columns| :: Applies(olds, columns[i]) && Declares(olds, columns[i].name))
    || (exists i, j | 0 <= i < j < |columns| :: Applies(olds, columns[i]) && Applies(olds, columns[j]) && columns[i].renamedFrom == columns[j].renamedFrom)
  }

  /** The resolution fails exactly when markers conflict. */
  lemma ClashIsConflict(olds: seq<Column>, columns: seq<Column>)
    ensures NoClash(olds, columns, |columns|) <==> !Conflict(olds, columns)
  {
    forall i | 0 <= i < |columns| && Applies(olds, columns[i])
      ensures Claimed(Markers(olds, columns, i), columns[i].renamedFrom) <==>
              exists j | 0 <= j < i :: Applies(olds, columns[j]) && columns[j].renamedFrom == columns[i].renamedFrom
    {
      ClaimedBefore(olds, columns, i, columns[i].renamedFrom);
    }
    hide Markers, Claimed, Applies;
    if i :| 0 <= i < |columns| && ClashAt(olds, columns, i) {
      assert Conflict(olds, columns);
    }
    if i, j :| 0 <= i < j < |columns| && Applies(olds, columns[i]) && Applies(olds, columns[j]) && columns[i].renamedFrom == columns[j].renamedFrom {
      assert ClashAt(olds, columns, j);
    }
    if i :| 0 <= i < |columns| && Applies(olds, columns[i]) && Declares(olds, columns[i].name) {
      assert ClashAt(olds, columns, i);
    }
  }

  lemma ClaimedBefore(olds: seq<Column>, columns: seq<Column>, n: nat, name: string)
    requires n <= |columns|
    ensures Claimed(Markers(olds, columns, n), name) <==> exists j | 0 <= j < n :: Applies(olds, columns[j]) && columns[j].renamedFrom == name
  {
    var ms := Markers(olds, columns, n);
    if j :| 0 <= j < n && Applies(olds, columns[j]) && columns[j].renamedFrom == name {
      var r := Rename(name, columns[j].name);
      MarkerFrom(olds, columns, n, r);
      var k :| 0 <= k < |ms| && ms[k] == r;
    }
    if k :| 0 <= k < |ms| && ms[k].was == name {
      MarkerFrom(olds, columns, n, ms[k]);
    }
  }

  /** What the resolution accepts has no collisions. */
  lemma {:induction false} MarkersAccepted(olds: seq<Column>, columns: seq<Column>, n: nat)
    requires n <= |columns| && NoClash(olds, columns, n) && DistinctColumns(columns)
    ensures Accepted(ColumnNames(olds), Markers(olds, columns, n))
  {
    if n > 0 {
      MarkersAccepted(olds, columns, n - 1);
      assert !ClashAt(olds, columns, n - 1);
      var ms := Markers(olds, columns, n - 1);
      forall j | 0 <= j < |ms| ensures ms[j].becomes != columns[n - 1].name {
        MarkerFrom(olds, columns, n - 1, ms[j]);
      }
    }
  }

  // ---- Relabelling a shape ------------------------------------------------------------------

  /** The name a column has after the renames, one after the other. */
  function After(renames: seq<Rename>, name: string): string
    decreases |renames|
  {
    if renames == [] then name else After(renames[1..], Renamed(name, renames[0].was, renames[0].becomes))
  }

  /** The name the rename table gives, looked up at once. */
  function Lookup(renames: seq<Rename>, name: string): string
    decreases |renames|
  {
    if renames == [] then name else if renames[0].was == name then renames[0].becomes else Lookup(renames[1..], name)
  }

  /** Looked up at once or applied in turn, accepted renames agree. */
  lemma {:induction false} LookupIsAfter(names: set<string>, renames: seq<Rename>, name: string)
    requires Accepted(names, renames) && name in names
    ensures Lookup(renames, name) == After(renames, name)
    decreases |renames|
  {
    if renames != [] {
      var rest := renames[1..];
      forall i | 0 <= i < |rest| ensures rest[i] == renames[i + 1] { }
      if renames[0].was == name {
        forall i | 0 <= i < |rest| ensures rest[i].was != renames[0].becomes { }
        Untouched(rest, renames[0].becomes);
      } else {
        LookupIsAfter(names, rest, name);
      }
    }
  }

  /** A name looked up is a rename's target, or itself when no rename claims it. */
  lemma {:induction false} LookupFound(renames: seq<Rename>, c: string)
    ensures Claimed(renames, c) ==> exists i | 0 <= i < |renames| :: renames[i].was == c && renames[i].becomes == Lookup(renames, c)
    ensures !Claimed(renames, c) ==> Lookup(renames, c) == c
    decreases |renames|
  {
    if renames != [] {
      forall i | 0 <= i < |renames[1..]| ensures renames[1..][i] == renames[i + 1] { }
      if renames[0].was != c {
        LookupFound(renames[1..], c);
        if i :| 0 <= i < |renames| && renames[i].was == c { assert renames[1..][i - 1].was == c; }
      }
    }
  }

  /** Accepted renames send different names to different names. */
  lemma LookupInjective(names: set<string>, renames: seq<Rename>, a: string, b: string)
    requires Accepted(names, renames) && a in names && b in names && Lookup(renames, a) == Lookup(renames, b)
    ensures a == b
  {
    hide Lookup;
    LookupFound(renames, a);
    LookupFound(renames, b);
  }

  lemma {:induction false} Untouched(renames: seq<Rename>, name: string)
    requires forall i | 0 <= i < |renames| :: renames[i].was != name
    ensures After(renames, name) == name
    decreases |renames|
  {
    if renames != [] {
      forall i | 0 <= i < |renames[1..]| ensures renames[1..][i] == renames[i + 1] { }
      Untouched(renames[1..], name);
    }
  }

  // ---- What renames do to a row of values ---------------------------------------------------

  lemma AcceptedRest(names: set<string>, renames: seq<Rename>)
    requires Accepted(names, renames) && renames != []
    ensures Accepted(names - {renames[0].was} + {renames[0].becomes}, renames[1..])
  {
    forall i | 0 <= i < |renames[1..]| ensures renames[1..][i] == renames[i + 1] { }
  }

  function RowAfter<V>(row: map<string, V>, renames: seq<Rename>): map<string, V>
    decreases |renames|
  {
    if renames == [] then row else RowAfter(RenamedRow(row, renames[0].was, renames[0].becomes), renames[1..])
  }

  lemma {:induction false} ValueAfter<V>(row: map<string, V>, renames: seq<Rename>, c: string)
    requires Accepted(row.Keys, renames) && c in row
    ensures After(renames, c) in RowAfter(row, renames) && RowAfter(row, renames)[After(renames, c)] == row[c]
    decreases |renames|
  {
    if renames != [] {
      var next := RenamedRow(row, renames[0].was, renames[0].becomes);
      AcceptedRest(row.Keys, renames);
      assert next.Keys == row.Keys - {renames[0].was} + {renames[0].becomes};
      ValueAfter(next, renames[1..], Renamed(c, renames[0].was, renames[0].becomes));
    }
  }

  lemma {:induction false} AfterLeaves(names: set<string>, renames: seq<Rename>, c: string, j: nat)
    requires Accepted(names, renames) && c in names && j < |renames|
    ensures After(renames, c) != renames[j].was
    decreases |renames|
  {
    LookupIsAfter(names, renames, c);
    LookedUpLeaves(names, renames, c, j, |renames|);
  }

  lemma {:induction false} LookedUpLeaves(names: set<string>, renames: seq<Rename>, c: string, j: nat, n: nat)
    requires n <= |renames| && Accepted(names, renames) && c in names && j < |renames|
    requires forall i | 0 <= i < |renames| - n :: renames[i].was != c
    ensures Lookup(renames[|renames| - n..], c) != renames[j].was
    decreases n
  {
    if n > 0 {
      var rest := renames[|renames| - n..];
      assert rest[0] == renames[|renames| - n] && rest[1..] == renames[|renames| - (n - 1)..];
      if rest[0].was != c { LookedUpLeaves(names, renames, c, j, n - 1); }
    } else {
      assert renames[|renames|..] == [];
      assert renames[j].was != c;
    }
  }
}
