/** Replaying the up list of a whole-schema diff on the old database. */
module SchemaReplay {
  import opened Options
  import opened Schema
  import opened Renames
  import opened PgReplay
  import opened PgDown
  import opened SchemaDiff
  import DropOrder

  // ---- Names through the renames ------------------------------------------------------------

  lemma {:induction false} LookupAppend(renames: seq<Rename>, r: Rename, c: string)
    ensures Lookup(renames + [r], c) == if Claimed(renames, c) then Lookup(renames, c) else if r.was == c then r.becomes else c
    decreases |renames|
  {
    if renames != [] {
      assert (renames + [r])[1..] == renames[1..] + [r];
      forall i | 0 <= i < |renames[1..]| ensures renames[1..][i] == renames[i + 1] { }
      if renames[0].was != c {
        LookupAppend(renames[1..], r, c);
        if i :| 0 <= i < |renames| && renames[i].was == c { assert renames[1..][i - 1].was == c; }
      }
    }
  }

  /** The renames in the old schema's order: one for each claimed table among the first n. */
  lemma {:induction false} InOldOrderHas(ch: Change, n: nat, r: Rename)
    requires n <= |ch.olds|
    ensures r in InOldOrder(ch, n) <==>
            exists i | 0 <= i < n :: Claimed(ch.renames, ch.olds[i].shape.name) && r == Rename(ch.olds[i].shape.name, Lookup(ch.renames, ch.olds[i].shape.name))
  {
    hide Claimed, Lookup;
    if n > 0 { InOldOrderHas(ch, n - 1, r); }
  }

  lemma {:induction false} InOldOrderAccepted(ch: Change, n: nat)
    requires n <= |ch.olds| && DistinctTitles(ch.olds) && Accepted(Titles(ch.olds), ch.renames)
    ensures Accepted(Titles(ch.olds), InOldOrder(ch, n))
  {
    if n > 0 {
      InOldOrderAccepted(ch, n - 1);
      var rs, name := InOldOrder(ch, n - 1), ch.olds[n - 1].shape.name;
      LookupFound(ch.renames, name);
      forall j | 0 <= j < |rs| ensures rs[j].was != name && (Claimed(ch.renames, name) ==> rs[j].becomes != Lookup(ch.renames, name)) {
        InOldOrderHas(ch, n - 1, rs[j]);
        var i :| 0 <= i < n - 1 && Claimed(ch.renames, ch.olds[i].shape.name)
                 && rs[j] == Rename(ch.olds[i].shape.name, Lookup(ch.renames, ch.olds[i].shape.name));
        if rs[j].becomes == Lookup(ch.renames, name) { LookupInjective(Titles(ch.olds), ch.renames, rs[j].was, name); }
      }
    }
  }

  /** In either order the renames look names up alike. */
  lemma {:induction false} InOldOrderLookup(ch: Change, n: nat, i: nat)
    requires n <= |ch.olds| && i < |ch.olds| && DistinctTitles(ch.olds)
    ensures Lookup(InOldOrder(ch, n), ch.olds[i].shape.name) == if i < n then Lookup(ch.renames, ch.olds[i].shape.name) else ch.olds[i].shape.name
    ensures Claimed(InOldOrder(ch, n), ch.olds[i].shape.name) <==> i < n && Claimed(ch.renames, ch.olds[i].shape.name)
  {
    if n > 0 {
      var last, name := ch.olds[n - 1].shape.name, ch.olds[i].shape.name;
      InOldOrderLookup(ch, n - 1, i);
      LookupFound(ch.renames, name);
      var rs := InOldOrder(ch, n - 1);
      if Claimed(ch.renames, last) {
        var r := Rename(last, Lookup(ch.renames, last));
        LookupAppend(rs, r, name);
        ClaimedMore(rs, r, name);
      } else {
        assert InOldOrder(ch, n) == rs;
      }
    }
  }

  lemma ClaimedMore(rs: seq<Rename>, r: Rename, name: string)
    ensures Claimed(rs + [r], name) <==> Claimed(rs, name) || r.was == name
  {
    if i :| 0 <= i < |rs| && rs[i].was == name { assert (rs + [r])[i].was == name; }
    if r.was == name { assert (rs + [r])[|rs|].was == name; }
  }

  /** Applying the emitted renames in turn is looking the name up. */
  lemma EmittedIsLookup(ch: Change, i: nat)
    requires i < |ch.olds| && DistinctTitles(ch.olds) && Accepted(Titles(ch.olds), ch.renames)
    ensures After(InOldOrder(ch, |ch.olds|), ch.olds[i].shape.name) == Lookup(ch.renames, ch.olds[i].shape.name)
  {
    InOldOrderAccepted(ch, |ch.olds|);
    InOldOrderLookup(ch, |ch.olds|, i);
    LookupIsAfter(Titles(ch.olds), InOldOrder(ch, |ch.olds|), ch.olds[i].shape.name);
  }

  /** A title stands for one old table. */
  lemma OldOfIs(ch: Change, i: nat)
    requires i < |ch.olds| && DistinctTitles(ch.olds) && Accepted(Titles(ch.olds), ch.renames)
    ensures OldOf(ch, Lookup(ch.renames, ch.olds[i].shape.name)) == Some(ch.olds[i])
  {
    var title := Lookup(ch.renames, ch.olds[i].shape.name);
    var j :| 0 <= j < |ch.olds| && ch.olds[j] == OldOf(ch, title).value && Lookup(ch.renames, ch.olds[j].shape.name) == title;
    LookupInjective(Titles(ch.olds), ch.renames, ch.olds[i].shape.name, ch.olds[j].shape.name);
  }

  // ---- The renames --------------------------------------------------------------------------

  lemma {:induction false} RenamesRun(db: PgDb, rs: seq<Rename>) returns (r: PgDb)
    requires Accepted(db.tables.Keys, rs)
    ensures RunDb(db, RenameTables(rs)) == Some(r) && r.tables == RowAfter(db.tables, rs)
    ensures forall q :: q in r.refs <==> exists p | p in db.refs :: q == (After(rs, p.0), After(rs, p.1))
    decreases |rs|
  {
    if rs == [] {
      r := db;
      NoSteps(db);
      forall p: (string, string) ensures p == (After(rs, p.0), After(rs, p.1)) { }
    } else {
      var a, b := rs[0].was, rs[0].becomes;
      var next := PgDb(RenamedRow(db.tables, a, b), MovedRefs(db.refs, a, b));
      AcceptedRest(db.tables.Keys, rs);
      assert next.tables.Keys == db.tables.Keys - {a} + {b};
      r := RenamesRun(next, rs[1..]);
      assert RenameTables(rs)[0] == RenameTo(a, b) && RenameTables(rs)[1..] == RenameTables(rs[1..]);
      MovedOn(db.refs, rs, r.refs);
    }
  }

  lemma MovedOn(refs: set<(string, string)>, rs: seq<Rename>, moved: set<(string, string)>)
    requires rs != []
    requires forall q :: q in moved <==> exists p | p in MovedRefs(refs, rs[0].was, rs[0].becomes) :: q == (After(rs[1..], p.0), After(rs[1..], p.1))
    ensures forall q :: q in moved <==> exists p | p in refs :: q == (After(rs, p.0), After(rs, p.1))
  {
    var a, b := rs[0].was, rs[0].becomes;
    forall q | q in moved ensures exists p | p in refs :: q == (After(rs, p.0), After(rs, p.1)) {
      var m :| m in MovedRefs(refs, a, b) && q == (After(rs[1..], m.0), After(rs[1..], m.1));
      var p :| p in refs && m == (Renamed(p.0, a, b), Renamed(p.1, a, b));
      assert q == (After(rs, p.0), After(rs, p.1));
    }
    forall p | p in refs ensures (After(rs, p.0), After(rs, p.1)) in moved {
      var m := (Renamed(p.0, a, b), Renamed(p.1, a, b));
      assert m in MovedRefs(refs, a, b);
    }
  }

  // ---- Sound schemas ------------------------------------------------------------------------

  ghost predicate ShapeOk(t: Table) { WellFormed(t) && PredicatesFormed(t) && DistinctIndexes(t.indexes) && Declarable(t) }

  /** Every reference names a table of the schema. */
  ghost predicate Closed(ds: seq<Declared>) {
    forall i, j | 0 <= i < |ds| && 0 <= j < |ds[i].refs| && ds[i].refs[j] != "" :: ds[i].refs[j] in Titles(ds)
  }

  predicate HasIndex(t: Table, x: string) { exists k | 0 <= k < |t.indexes| :: t.indexes[k].name == x }

  /** In one of the two schemas the table of this name has an index of that name. */
  ghost predicate Home(ch: Change, x: string, title: string) {
    || (exists i | 0 <= i < |ch.news| :: ch.news[i].shape.name == title && HasIndex(ch.news[i].shape, x))
    || (exists i | 0 <= i < |ch.olds| :: Lookup(ch.renames, ch.olds[i].shape.name) == title && HasIndex(ch.olds[i].shape, x))
  }

  /** Each index name stays on one table, and none is the name of a table. */
  ghost predicate Homely(ch: Change) {
    (forall x, t, u | Home(ch, x, t) && Home(ch, x, u) :: t == u) && forall x, t | Home(ch, x, t) :: x !in Titles(ch.olds) && x !in Titles(ch.news)
  }

  /** No column's old name is used again beside its new one. */
  ghost predicate NamesRetired(o: Declared, d: Declared) {
    forall r | r in ColumnRenames(o, d) :: r.was !in ColumnNames(d.shape.columns)
  }

  ghost predicate WellNamed(ch: Change) {
    && DistinctTitles(ch.olds) && DistinctTitles(ch.news) && "" !in Titles(ch.olds)
    && ch.renames == Markers(AsColumns(ch.olds), AsColumns(ch.news), |ch.news|)
    && !AnyConflict(ch)
  }

  /**
   * Well-formed schemas whose markers do not conflict, with each index name on one table, renamed-away columns retired and the
   * key columns of a table the same on both sides.
   */
  ghost predicate Sound(ch: Change) {
    && WellNamed(ch) && Closed(ch.olds) && Closed(ch.news) && Homely(ch)
    && (forall i | 0 <= i < |ch.olds| :: ShapeOk(ch.olds[i].shape))
    && (forall i | 0 <= i < |ch.news| :: ShapeOk(ch.news[i].shape))
    && (forall i | 0 <= i < |ch.news| && OldOf(ch, ch.news[i].shape.name).Some? ::
          && NamesRetired(OldOf(ch, ch.news[i].shape.name).value, ch.news[i])
          && KeysKept(OldOf(ch, ch.news[i].shape.name).value.shape, ch.news[i].shape, ColumnRenames(OldOf(ch, ch.news[i].shape.name).value, ch.news[i])))
  }

  lemma TableRenamesAccepted(ch: Change)
    requires WellNamed(ch)
    ensures Accepted(Titles(ch.olds), ch.renames)
    ensures forall r | r in ch.renames :: r.becomes in Titles(ch.news)
  {
    var olds, news := AsColumns(ch.olds), AsColumns(ch.news);
    ClashIsConflict(olds, news);
    MarkersAccepted(olds, news, |news|);
    assert ColumnNames(olds) == Titles(ch.olds);
    forall r | r in ch.renames ensures r.becomes in Titles(ch.news) { MarkerFrom(olds, news, |news|, r); }
  }

  // ---- After the renames --------------------------------------------------------------------

  function OldTable(ch: Change, title: string): Option<PgTable> {
    var o := OldOf(ch, title);
    if o.Some? then Some(PgOf(o.value.shape)) else None
  }

  /** A table by its name after the renames references another, by its name after the renames. */
  ghost predicate RefersOld(ch: Change, m: string, n: string) {
    exists i, j | 0 <= i < |ch.olds| && 0 <= j < |ch.olds[i].refs| :: RefersAt(ch, i, j, m, n)
  }

  predicate RefersAt(ch: Change, i: nat, j: nat, m: string, n: string)
    requires i < |ch.olds| && j < |ch.olds[i].refs|
  {
    && ch.olds[i].refs[j] != ""
    && m == Lookup(ch.renames, ch.olds[i].shape.name) && n == Lookup(ch.renames, ch.olds[i].refs[j])
  }

  lemma Retitling(ch: Change) returns (r: PgDb)
    requires WellNamed(ch) && Closed(ch.olds)
    ensures RunDb(DbOf(ch.olds), RenameTables(InOldOrder(ch, |ch.olds|))) == Some(r)
    ensures forall c :: Get(r.tables, c) == OldTable(ch, c)
    ensures forall m, n :: (m, n) in r.refs <==> RefersOld(ch, m, n)
  {
    TableRenamesAccepted(ch);
    InOldOrderAccepted(ch, |ch.olds|);
    assert TableMap(ch.olds).Keys == Titles(ch.olds);
    hide InOldOrder;
    r := RenamesRun(DbOf(ch.olds), InOldOrder(ch, |ch.olds|));
    hide RunDb;
    forall c ensures Get(r.tables, c) == OldTable(ch, c) { RetitledTable(ch, c); }
    forall m, n ensures (m, n) in r.refs <==> RefersOld(ch, m, n) { RetitledRef(ch, r.refs, m, n); }
  }

  lemma OldTableAt(ch: Change, i: nat)
    requires i < |ch.olds| && DistinctTitles(ch.olds) && Accepted(Titles(ch.olds), ch.renames)
    ensures OldTable(ch, Lookup(ch.renames, ch.olds[i].shape.name)) == Some(PgOf(ch.olds[i].shape))
    ensures ch.olds[i].shape.name in TableMap(ch.olds) && TableMap(ch.olds)[ch.olds[i].shape.name] == PgOf(ch.olds[i].shape)
  {
    hide PgOf, Among, Accepted;
    OldOfIs(ch, i);
    assert ch.olds[i].shape.name in Titles(ch.olds);
    OwnAmong(ch.olds, |ch.olds|, i);
  }

  lemma RetitledTable(ch: Change, c: string)
    requires WellNamed(ch)
    ensures Get(RowAfter(TableMap(ch.olds), InOldOrder(ch, |ch.olds|)), c) == OldTable(ch, c)
  {
    TableRenamesAccepted(ch);
    InOldOrderAccepted(ch, |ch.olds|);
    var tables, rs := TableMap(ch.olds), InOldOrder(ch, |ch.olds|);
    assert tables.Keys == Titles(ch.olds);
    hide InOldOrder, TableMap, PgOf, RowAfter, AnyConflict, Accepted;
    if OldOf(ch, c).Some? {
      var i :| 0 <= i < |ch.olds| && Lookup(ch.renames, ch.olds[i].shape.name) == c;
      OldTableAt(ch, i);
      EmittedIsLookup(ch, i);
      ValueAfter(tables, rs, ch.olds[i].shape.name);
    } else if c in RowAfter(tables, rs) {
      var k := RowAfterKey(tables, rs, c);
      var i :| 0 <= i < |ch.olds| && ch.olds[i].shape.name == k;
      EmittedIsLookup(ch, i);
    }
  }

  lemma RetitledRef(ch: Change, refs: set<(string, string)>, m: string, n: string)
    requires WellNamed(ch) && Closed(ch.olds)
    requires var rs := InOldOrder(ch, |ch.olds|);
             forall q :: q in refs <==> exists p | p in RefsOf(ch.olds) :: q == (After(rs, p.0), After(rs, p.1))
    ensures (m, n) in refs <==> RefersOld(ch, m, n)
  {
    TableRenamesAccepted(ch);
    hide AnyConflict, InOldOrder, Accepted;
    var rs := InOldOrder(ch, |ch.olds|);
    if (m, n) in refs {
      var p :| p in RefsOf(ch.olds) && (m, n) == (After(rs, p.0), After(rs, p.1));
      var i :| 0 <= i < |ch.olds| && p in OwnRefs(ch.olds[i]);
      var j :| 0 <= j < |ch.olds[i].refs| && ch.olds[i].refs[j] != "" && p == (ch.olds[i].shape.name, ch.olds[i].refs[j]);
      EmittedRef(ch, i, j);
      assert RefersAt(ch, i, j, m, n);
    }
    if RefersOld(ch, m, n) {
      var i, j :| 0 <= i < |ch.olds| && 0 <= j < |ch.olds[i].refs| && RefersAt(ch, i, j, m, n);
      EmittedRef(ch, i, j);
      var p := (ch.olds[i].shape.name, ch.olds[i].refs[j]);
      assert p in OwnRefs(ch.olds[i]);
      assert p in RefsOf(ch.olds);
    }
  }

  lemma EmittedRef(ch: Change, i: nat, j: nat)
    requires DistinctTitles(ch.olds) && Accepted(Titles(ch.olds), ch.renames) && Closed(ch.olds)
    requires i < |ch.olds| && j < |ch.olds[i].refs| && ch.olds[i].refs[j] != ""
    ensures After(InOldOrder(ch, |ch.olds|), ch.olds[i].shape.name) == Lookup(ch.renames, ch.olds[i].shape.name)
    ensures After(InOldOrder(ch, |ch.olds|), ch.olds[i].refs[j]) == Lookup(ch.renames, ch.olds[i].refs[j])
  {
    EmittedIsLookup(ch, i);
    assert ch.olds[i].refs[j] in Titles(ch.olds);
    var k :| 0 <= k < |ch.olds| && ch.olds[k].shape.name == ch.olds[i].refs[j];
    EmittedIsLookup(ch, k);
  }
}
