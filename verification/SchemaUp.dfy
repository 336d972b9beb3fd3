/** The whole up list of a schema diff, replayed on the old database. */
module SchemaUp {
  // New, dropped and changed tables on the old database, and the whole replay. Each phase of the up list is followed on
  // the database the phase before it left: the renames, then the new tables with their indexes, each needing the tables
  // it references, then the drops, each failing while another table references its table, then the diff of every table
  // both schemas have. Together they say when the list succeeds and what it leaves.

  import opened Options
  import opened Schema
  import opened Renames
  import opened PgReplay
  import opened PgDown
  import opened SchemaDiff
  import opened SchemaReplay
  import DropOrder

  // ---- Inside one table ---------------------------------------------------------------------

  /** The other tables' index names do not depend on the table itself. */
  lemma OthersSame(a: PgDb, b: PgDb, name: string)
    requires forall t | t != name :: Get(a.tables, t) == Get(b.tables, t)
    ensures OtherIndexes(a, name) == OtherIndexes(b, name)
  {
    forall x ensures x in OtherIndexes(a, name) <==> x in OtherIndexes(b, name) {
      if t :| t in a.tables && t != name && x in a.tables[t].indexes { assert Get(b.tables, t) == Some(a.tables[t]); }
      if t :| t in b.tables && t != name && x in b.tables[t].indexes { assert Get(a.tables, t) == Some(b.tables[t]); }
    }
  }

  lemma {:induction false} InsideRuns(db: PgDb, name: string, ss: seq<Step>, t: PgTable)
    requires name in db.tables && RunPg(db.tables[name], ss, OtherIndexes(db, name)) == Some(t)
    ensures RunDb(db, Wrapped(name, ss)) == Some(db.(tables := db.tables[name := t]))
    decreases |ss|
  {
    hide ExecutePg;
    if ss == [] {
      NoSteps(db);
      assert db.tables[name := t] == db.tables;
    } else {
      var next := ExecutePg(db.tables[name], ss[0], OtherIndexes(db, name)).value;
      var after := db.(tables := db.tables[name := next]);
      OthersSame(after, db, name);
      InsideRuns(after, name, ss[1..], t);
      assert Wrapped(name, ss)[1..] == Wrapped(name, ss[1..]);
      assert after.tables[name := t] == db.tables[name := t];
    }
  }

  lemma {:induction false} InsideFails(db: PgDb, name: string, ss: seq<Step>)
    requires name in db.tables && RunPg(db.tables[name], ss, OtherIndexes(db, name)) == None
    ensures RunDb(db, Wrapped(name, ss)) == None
    decreases |ss|
  {
    hide ExecutePg;
    if ExecutePg(db.tables[name], ss[0], OtherIndexes(db, name)).Some? {
      var next := ExecutePg(db.tables[name], ss[0], OtherIndexes(db, name)).value;
      var after := db.(tables := db.tables[name := next]);
      OthersSame(after, db, name);
      InsideFails(after, name, ss[1..]);
      assert Wrapped(name, ss)[1..] == Wrapped(name, ss[1..]);
    }
  }

  /** What stands under a name is what one of the schemas declares for it. */
  ghost predicate Known(ch: Change, c: string, t: PgTable) {
    || (exists i | 0 <= i < |ch.news| :: ch.news[i].shape.name == c && t == PgOf(ch.news[i].shape))
    || (exists i | 0 <= i < |ch.olds| :: Lookup(ch.renames, ch.olds[i].shape.name) == c && t == PgOf(ch.olds[i].shape))
  }

  lemma KnownIndexes(ch: Change, c: string, t: PgTable, x: string)
    requires Known(ch, c, t) && x in t.indexes
    ensures Home(ch, x, c)
  {
    if i :| 0 <= i < |ch.news| && ch.news[i].shape.name == c && t == PgOf(ch.news[i].shape) {
      IndexMapHas(ch.news[i].shape.indexes, x);
    } else {
      var i :| 0 <= i < |ch.olds| && Lookup(ch.renames, ch.olds[i].shape.name) == c && t == PgOf(ch.olds[i].shape);
      IndexMapHas(ch.olds[i].shape.indexes, x);
    }
  }

  /** No other table has an index of a name that lives on this one. */
  lemma FreeElsewhere(ch: Change, db: PgDb, c: string, xs: seq<Index>)
    requires Homely(ch) && forall t | t in db.tables && t != c :: Known(ch, t, db.tables[t])
    requires forall i | 0 <= i < |xs| :: Home(ch, xs[i].name, c)
    ensures NamesFree(xs, OtherIndexes(db, c))
  {
    hide Known, Home;
    forall i | 0 <= i < |xs| ensures xs[i].name !in OtherIndexes(db, c) {
      forall t | t in db.tables && t != c ensures xs[i].name !in db.tables[t].indexes {
        if xs[i].name in db.tables[t].indexes { KnownIndexes(ch, t, db.tables[t], xs[i].name); }
      }
    }
  }

  // ---- New tables ---------------------------------------------------------------------------

  /** Each index reads as its own table types the columns. */
  predicate IndexesRead(t: Table) { forall i | 0 <= i < |t.indexes| :: Legible(t.indexes[i], ShapeMap(t.columns)) }

  lemma {:induction false} IndexesMade(t: PgTable, xs: seq<Index>, n: nat, others: set<string>) returns (r: Option<PgTable>)
    requires n <= |xs| && t.indexes == map[] && DistinctIndexes(xs) && NamesFree(xs, others) && forall i | 0 <= i < |xs| :: Fits(t, xs[i])
    ensures RunPg(t, MakeIndexes(xs, n), others) == r && (r.Some? <==> forall i | 0 <= i < n :: Legible(xs[i], t.columns))
    ensures r.Some? ==> r.value.columns == t.columns && forall name :: Get(r.value.indexes, name) == IndexAmong(xs, n, name)
  {
    hide RunPg, ExecutePg, Fits, Legible;
    if n == 0 {
      r := Some(t);
      NothingRun(t, others);
    } else {
      r := IndexesMade(t, xs, n - 1, others);
      PgJoined(t, MakeIndexes(xs, n - 1), [MakeIndex(xs[n - 1])], others);
      if r.Some? {
        NoIndexAmong(xs, n - 1, n - 1);
        SameColumnsFit(t, r.value, xs[n - 1]);
        assert Get(r.value.indexes, xs[n - 1].name).None?;
        MakeOne(r.value, xs[n - 1], others);
        r := if Legible(xs[n - 1], t.columns) then Some(r.value.(indexes := r.value.indexes[xs[n - 1].name := xs[n - 1]])) else None;
      }
    }
  }

  lemma WholeTable(shape: Table, others: set<string>)
    requires ShapeOk(shape) && NamesFree(shape.indexes, others)
    ensures RunPg(PgTable(ShapeMap(shape.columns), map[]), MakeIndexes(shape.indexes, |shape.indexes|), others) ==
            if IndexesRead(shape) then Some(PgOf(shape)) else None
  {
    var t := PgTable(ShapeMap(shape.columns), map[]);
    forall i | 0 <= i < |shape.indexes| ensures Fits(t, shape.indexes[i]) {
      OldIndexFits(shape, shape, i);
      SameColumnsFit(PgOf(shape), t, shape.indexes[i]);
    }
    hide RunPg, ShapeMap, IndexMap, MakeIndexes, Fits, WellFormed, PredicatesFormed, Legible;
    var r := IndexesMade(t, shape.indexes, |shape.indexes|, others);
    if r.Some? {
      assert shape.indexes[..|shape.indexes|] == shape.indexes;
      forall x ensures Get(r.value.indexes, x) == Get(IndexMap(shape.indexes), x) { IndexMapGet(shape.indexes, |shape.indexes|, x); }
      SameByGet(r.value.indexes, IndexMap(shape.indexes));
    }
  }

  lemma WholeRuns(db: PgDb, d: Declared)
    requires d.shape.name !in db.tables && CanMake(db.tables, d)
    requires ShapeOk(d.shape) && NamesFree(d.shape.indexes, OtherIndexes(db, d.shape.name))
    ensures RunDb(db, Whole(d)) == if IndexesRead(d.shape) then Some(PgDb(db.tables[d.shape.name := PgOf(d.shape)], db.refs + OwnRefs(d))) else None
  {
    var name, bare := d.shape.name, PgTable(ShapeMap(d.shape.columns), map[]);
    var m := PgDb(db.tables[name := bare], db.refs + OwnRefs(d));
    OthersSame(m, db, name);
    WholeTable(d.shape, OtherIndexes(db, name));
    OneStep(db, Make(d));
    hide PgOf, RunPg, ShapeOk, CanMake, OtherIndexes, IndexesRead;
    DbJoined(db, [Make(d)], Wrapped(name, MakeIndexes(d.shape.indexes, |d.shape.indexes|)));
    if IndexesRead(d.shape) {
      InsideRuns(m, name, MakeIndexes(d.shape.indexes, |d.shape.indexes|), PgOf(d.shape));
      assert m.tables[name := PgOf(d.shape)] == db.tables[name := PgOf(d.shape)];
    } else {
      InsideFails(m, name, MakeIndexes(d.shape.indexes, |d.shape.indexes|));
    }
  }

  lemma WholeFails(db: PgDb, d: Declared)
    requires d.shape.name in db.tables || !CanMake(db.tables, d)
    ensures RunDb(db, Whole(d)) == None
  {
    OneStep(db, Make(d));
    hide CanMake, RunDb;
    DbJoined(db, [Make(d)], Wrapped(d.shape.name, MakeIndexes(d.shape.indexes, |d.shape.indexes|)));
  }

  /** What stands under a name once the first n new tables are made. */
  function MadeTable(ch: Change, n: nat, c: string): Option<PgTable>
    requires n <= |ch.news|
  {
    if OldTable(ch, c).Some? then OldTable(ch, c) else NewTable(ch, n, c)
  }

  function NewTable(ch: Change, n: nat, c: string): Option<PgTable>
    requires n <= |ch.news|
  {
    var d := Among(ch.news, [], n, c);
    if d.Some? then Some(PgOf(d.value.shape)) else None
  }

  ghost predicate Made(ch: Change, n: nat, db: PgDb)
    requires n <= |ch.news|
  {
    forall c :: Get(db.tables, c) == MadeTable(ch, n, c)
  }

  /** Every table a new table references is an old one, itself, or comes before it in the new schema. */
  predicate ReferencesExist(ch: Change, i: nat)
    requires i < |ch.news|
  {
    forall j | 0 <= j < |ch.news[i].refs| && ch.news[i].refs[j] != "" && ch.news[i].refs[j] != ch.news[i].shape.name ::
      OldOf(ch, ch.news[i].refs[j]).Some? || exists k | 0 <= k < i :: ch.news[k].shape.name == ch.news[i].refs[j]
  }

  /** The i-th new table finds the tables it references, and its indexes read. */
  predicate Makeable(ch: Change, i: nat)
    requires i < |ch.news|
  {
    ReferencesExist(ch, i) && IndexesRead(ch.news[i].shape)
  }

  predicate IsNew(ch: Change, i: nat)
    requires i < |ch.news|
  {
    OldOf(ch, ch.news[i].shape.name).None?
  }

  lemma KnownOld(ch: Change, c: string)
    requires OldTable(ch, c).Some?
    ensures Known(ch, c, OldTable(ch, c).value)
  {
    var i :| 0 <= i < |ch.olds| && ch.olds[i] == OldOf(ch, c).value && Lookup(ch.renames, ch.olds[i].shape.name) == c;
  }

  lemma KnownNew(ch: Change, n: nat, c: string)
    requires n <= |ch.news| && NewTable(ch, n, c).Some?
    ensures Known(ch, c, NewTable(ch, n, c).value)
  {
    var i :| 0 <= i < n && ch.news[i] == Among(ch.news, [], n, c).value && Lookup([], ch.news[i].shape.name) == c;
    assert Lookup([], ch.news[i].shape.name) == ch.news[i].shape.name;
  }

  lemma CanMakeIff(ch: Change, n: nat, db: PgDb)
    requires n < |ch.news| && Made(ch, n, db)
    ensures CanMake(db.tables, ch.news[n]) <==> ReferencesExist(ch, n)
  {
    hide OldOf, PgOf, Among;
    forall c: string ensures c in db.tables <==> OldOf(ch, c).Some? || exists k | 0 <= k < n :: ch.news[k].shape.name == c {
      assert Get(db.tables, c).Some? <==> c in db.tables;
      AmongNamed(ch.news, n, c);
    }
  }

  lemma MadeNext(ch: Change, n: nat, c: string)
    requires 0 < n <= |ch.news| && DistinctTitles(ch.news)
    ensures MadeTable(ch, n, c) ==
            if c == ch.news[n - 1].shape.name && IsNew(ch, n - 1) then Some(PgOf(ch.news[n - 1].shape)) else MadeTable(ch, n - 1, c)
  {
    hide PgOf;
    AmongNext(ch.news, n, c);
  }

  lemma MadeMore(ch: Change, n: nat, db: PgDb, next: PgDb)
    requires 0 < n <= |ch.news| && DistinctTitles(ch.news) && Made(ch, n - 1, db)
    requires if IsNew(ch, n - 1) then next.tables == db.tables[ch.news[n - 1].shape.name := PgOf(ch.news[n - 1].shape)] else next == db
    ensures Made(ch, n, next)
  {
    hide PgOf, MadeTable, IsNew;
    forall c ensures Get(next.tables, c) == MadeTable(ch, n, c) {
      MadeNext(ch, n, c);
      assert Get(db.tables, c) == MadeTable(ch, n - 1, c);
    }
  }

  lemma MakeNext(ch: Change, db: PgDb, n: nat) returns (r: Option<PgDb>)
    requires Sound(ch) && 0 < n <= |ch.news| && IsNew(ch, n - 1) && Made(ch, n - 1, db)
    ensures r == RunDb(db, Whole(ch.news[n - 1])) && (r.Some? <==> Makeable(ch, n - 1))
    ensures r.Some? ==> Made(ch, n, r.value)
    ensures r.Some? ==> r.value.refs == db.refs + OwnRefs(ch.news[n - 1])
  {
    hide *;
    var d := ch.news[n - 1];
    CanMakeIff(ch, n - 1, db);
    MakeableIs(ch, n - 1);
    if CanMake(db.tables, d) {
      r := MakeOneTable(ch, db, n);
    } else {
      WholeFails(db, d);
      r := None;
    }
  }

  lemma MakeableIs(ch: Change, i: nat)
    requires i < |ch.news|
    ensures Makeable(ch, i) <==> ReferencesExist(ch, i) && IndexesRead(ch.news[i].shape)
  {
  }

  lemma MakeOneTable(ch: Change, db: PgDb, n: nat) returns (r: Option<PgDb>)
    requires Sound(ch) && 0 < n <= |ch.news| && IsNew(ch, n - 1) && Made(ch, n - 1, db)
    requires CanMake(db.tables, ch.news[n - 1])
    ensures RunDb(db, Whole(ch.news[n - 1])) == r && (r.Some? <==> IndexesRead(ch.news[n - 1].shape))
    ensures r.Some? ==> r.value.refs == db.refs + OwnRefs(ch.news[n - 1]) && Made(ch, n, r.value)
  {
    var d := ch.news[n - 1];
    assert WellNamed(ch);
    hide RunDb, Whole, PgOf, WellNamed, Sound, CanMake, ShapeOk, MadeTable, OtherIndexes, NamesFree, OwnRefs, Among, OldOf, IndexesRead;
    NewIsAbsent(ch, db, n);
    NewIsFree(ch, db, n);
    WholeRuns(db, d);
    r := RunDb(db, Whole(d));
    if r.Some? {
      NewsDistinct(ch);
      MadeMore(ch, n, db, r.value);
    }
  }

  lemma NewsDistinct(ch: Change)
    requires WellNamed(ch)
    ensures DistinctTitles(ch.olds) && DistinctTitles(ch.news)
  {
  }

  lemma NewIsAbsent(ch: Change, db: PgDb, n: nat)
    requires WellNamed(ch) && 0 < n <= |ch.news| && IsNew(ch, n - 1) && Made(ch, n - 1, db)
    ensures ch.news[n - 1].shape.name !in db.tables
  {
    hide AnyConflict, PgOf;
    OwnAmong(ch.news, n - 1, n - 1);
    assert Get(db.tables, ch.news[n - 1].shape.name).None?;
  }

  lemma NewIsFree(ch: Change, db: PgDb, n: nat)
    requires Sound(ch) && 0 < n <= |ch.news| && Made(ch, n - 1, db)
    ensures ShapeOk(ch.news[n - 1].shape) && NamesFree(ch.news[n - 1].shape.indexes, OtherIndexes(db, ch.news[n - 1].shape.name))
  {
    hide WellNamed, Closed, ShapeOk, Homely, OldTable, NewTable;
    var d := ch.news[n - 1];
    forall t | t in db.tables && t != d.shape.name ensures Known(ch, t, db.tables[t]) {
      assert Get(db.tables, t) == MadeTable(ch, n - 1, t);
      if OldTable(ch, t).Some? { KnownOld(ch, t); } else { KnownNew(ch, n - 1, t); }
    }
    HomeOfNew(ch, n - 1);
    FreeElsewhere(ch, db, d.shape.name, d.shape.indexes);
  }

  lemma HomeOfNew(ch: Change, i: nat)
    requires i < |ch.news|
    ensures forall k | 0 <= k < |ch.news[i].shape.indexes| :: Home(ch, ch.news[i].shape.indexes[k].name, ch.news[i].shape.name)
  {
  }

  lemma MakesNone(ch: Change, db: PgDb)
    requires forall c :: Get(db.tables, c) == OldTable(ch, c)
    ensures RunDb(db, MakeSteps(ch, 0)) == Some(db) && Made(ch, 0, db)
  {
    NoSteps(db);
    hide OldTable;
  }

  lemma MakesMore(ch: Change, db: PgDb, n: nat)
    requires 0 < n <= |ch.news|
    ensures RunDb(db, MakeSteps(ch, n)) ==
            if !IsNew(ch, n - 1) then RunDb(db, MakeSteps(ch, n - 1))
            else match RunDb(db, MakeSteps(ch, n - 1)) case None => None case Some(m) => RunDb(m, Whole(ch.news[n - 1]))
  {
    hide RunDb, Whole, OldOf;
    if IsNew(ch, n - 1) {
      DbJoined(db, MakeSteps(ch, n - 1), Whole(ch.news[n - 1]));
    } else {
      assert MakeSteps(ch, n) == MakeSteps(ch, n - 1);
    }
  }

  /** The first n new tables can be made. */
  predicate AllMakeable(ch: Change, n: nat)
    requires n <= |ch.news|
  {
    forall i | 0 <= i < n && IsNew(ch, i) :: Makeable(ch, i)
  }

  /** The references of the database and of the first n new tables. */
  ghost predicate RefsMade(ch: Change, n: nat, before: set<(string, string)>, refs: set<(string, string)>)
    requires n <= |ch.news|
  {
    forall p :: p in refs <==> p in before || NewRef(ch, n, p)
  }

  /** One of the first n new tables declares the reference. */
  predicate NewRef(ch: Change, n: nat, p: (string, string))
    requires n <= |ch.news|
  {
    exists i | 0 <= i < n && IsNew(ch, i) :: p in OwnRefs(ch.news[i])
  }

  /** After the up list: what the tables that stayed and the new ones declare. */
  ghost predicate UpRefs(ch: Change, refs: set<(string, string)>) {
    forall m, c :: (m, c) in refs <==> (RefersOld(ch, m, c) && m in Titles(ch.news)) || NewRef(ch, |ch.news|, (m, c))
  }

  lemma MakeableMore(ch: Change, n: nat)
    requires 0 < n <= |ch.news|
    ensures AllMakeable(ch, n) <==> AllMakeable(ch, n - 1) && (IsNew(ch, n - 1) ==> Makeable(ch, n - 1))
  {
    hide IsNew, Makeable;
  }

  lemma RefsMore(ch: Change, n: nat, before: set<(string, string)>, refs: set<(string, string)>, next: set<(string, string)>)
    requires 0 < n <= |ch.news| && RefsMade(ch, n - 1, before, refs)
    requires next == if IsNew(ch, n - 1) then refs + OwnRefs(ch.news[n - 1]) else refs
    ensures RefsMade(ch, n, before, next)
  {
    hide IsNew, OwnRefs;
  }

  lemma RefsNone(ch: Change, refs: set<(string, string)>)
    ensures RefsMade(ch, 0, refs, refs)
  {
  }

  lemma SoundIsNamed(ch: Change)
    requires Sound(ch)
    ensures WellNamed(ch)
  {
  }

  /** The new tables are made exactly when each finds the tables it references and its indexes read. */
  lemma {:induction false} MakesRun(ch: Change, db: PgDb, n: nat) returns (r: Option<PgDb>)
    requires Sound(ch) && n <= |ch.news| && forall c :: Get(db.tables, c) == OldTable(ch, c)
    ensures r == RunDb(db, MakeSteps(ch, n)) && (r.Some? <==> AllMakeable(ch, n))
    ensures r.Some? ==> Made(ch, n, r.value) && RefsMade(ch, n, db.refs, r.value.refs)
  {
    if n == 0 {
      hide *;
      MakesNone(ch, db);
      NoneMakeable(ch);
      RefsNone(ch, db.refs);
      r := Some(db);
    } else {
      hide *;
      r := MakesRun(ch, db, n - 1);
      SoundIsNamed(ch);
      NewsDistinct(ch);
      MakesMore(ch, db, n);
      MakeableMore(ch, n);
      if r.Some? {
        var m := r.value;
        if IsNew(ch, n - 1) { r := MakeNext(ch, m, n); } else { MadeMore(ch, n, m, m); }
        if r.Some? { RefsMore(ch, n, db.refs, m.refs, r.value.refs); }
      }
    }
  }

  lemma NoneMakeable(ch: Change)
    ensures AllMakeable(ch, 0)
  {
  }

  // ---- Dropped tables -----------------------------------------------------------------------

  /** The i-th drop meets a reference from a table that is still there. */
  predicate BlockedAt(refs: set<(string, string)>, order: seq<DropOrder.Table>, i: nat, p: (string, string))
    requires i < |order|
  {
    p in refs && p.1 == order[i].name && p.0 != p.1 && forall j | 0 <= j < i :: order[j].name != p.0
  }

  ghost predicate Blocked(refs: set<(string, string)>, order: seq<DropOrder.Table>) {
    exists i, p | 0 <= i < |order| :: BlockedAt(refs, order, i, p)
  }

  predicate Drops(order: seq<DropOrder.Table>, c: string) { exists i | 0 <= i < |order| :: order[i].name == c }

  lemma BlockedRest(refs: set<(string, string)>, rest: set<(string, string)>, order: seq<DropOrder.Table>)
    requires order != [] && rest == set p | p in refs && p.0 != order[0].name
    ensures Blocked(refs, order) <==> Referenced(refs, order[0].name) || Blocked(rest, order[1..])
  {
    if Referenced(refs, order[0].name) {
      var p :| p in refs && p.1 == order[0].name && p.0 != order[0].name;
      assert BlockedAt(refs, order, 0, p);
    }
    if Blocked(rest, order[1..]) {
      var i, p :| 0 <= i < |order[1..]| && BlockedAt(rest, order[1..], i, p);
      forall j | 0 <= j < i + 1 ensures order[j].name != p.0 { if j > 0 { assert order[j] == order[1..][j - 1]; } }
      assert BlockedAt(refs, order, i + 1, p);
    }
    if Blocked(refs, order) {
      var i, p :| 0 <= i < |order| && BlockedAt(refs, order, i, p);
      if i > 0 {
        forall j | 0 <= j < i - 1 ensures order[1..][j].name != p.0 { assert order[1..][j] == order[j + 1]; }
        assert BlockedAt(rest, order[1..], i - 1, p);
      }
    }
  }

  lemma {:induction false} DropsRun(db: PgDb, order: seq<DropOrder.Table>) returns (r: Option<PgDb>)
    ensures r == RunDb(db, DropSteps(order)) && (r.Some? <==> !Blocked(db.refs, order))
    ensures r.Some? ==> forall c :: Get(r.value.tables, c) == if Drops(order, c) then None else Get(db.tables, c)
    ensures r.Some? ==> forall p :: p in r.value.refs <==> p in db.refs && !Drops(order, p.0)
    decreases |order|
  {
    if order == [] {
      r := Some(db);
      NoSteps(db);
    } else {
      var name := order[0].name;
      var next := PgDb(db.tables - {name}, set p | p in db.refs && p.0 != name);
      BlockedRest(db.refs, next.refs, order);
      assert DropSteps(order)[0] == Drop(name) && DropSteps(order)[1..] == DropSteps(order[1..]);
      hide Blocked;
      if Referenced(db.refs, name) {
        r := None;
      } else {
        r := DropsRun(next, order[1..]);
        forall c ensures Drops(order, c) <==> c == name || Drops(order[1..], c) { DropsMore(order, c); }
      }
    }
  }

  lemma DropsMore(order: seq<DropOrder.Table>, c: string)
    requires order != []
    ensures Drops(order, c) <==> c == order[0].name || Drops(order[1..], c)
  {
    if i :| 0 <= i < |order| && order[i].name == c { if i > 0 { assert order[1..][i - 1].name == c; } }
    if i :| 0 <= i < |order[1..]| && order[1..][i].name == c { assert order[i + 1].name == c; }
  }

  /** A table that stays references one that goes. */
  ghost predicate KeptReference(ch: Change) {
    exists i, j | 0 <= i < |ch.olds| && 0 <= j < |ch.olds[i].refs| ::
      && ch.olds[i].refs[j] != "" && Lookup(ch.renames, ch.olds[i].shape.name) in Titles(ch.news)
      && Lookup(ch.renames, ch.olds[i].refs[j]) !in Titles(ch.news)
  }

  /** Some order of the dropped tables. */
  ghost predicate OrderOf(ch: Change, order: seq<DropOrder.Table>) {
    && (forall t :: t in order <==> t in Gone(ch))
    && DropOrder.DistinctNames(order)
  }

  lemma TwoPlaces<T>(s: seq<T>, i: nat, j: nat)
    requires i < j < |s| && s[i] == s[j]
    ensures multiset(s)[s[i]] >= 2
  {
    assert s == s[..j] + s[j..];
    assert s[i] == s[..j][i] && s[j] == s[j..][0];
    assert s[i] in multiset(s[..j]) && s[i] in multiset(s[j..]);
  }

  lemma OnePlace<T>(s: seq<T>, i: nat, j: nat)
    requires i <= j < |s| && s[i] == s[j] && multiset(s)[s[i]] <= 1
    ensures i == j
  {
    if i < j { TwoPlaces(s, i, j); }
  }

  lemma OrderIsOrder(ch: Change, order: seq<DropOrder.Table>)
    requires WellNamed(ch) && multiset(order) == multiset(Gone(ch))
    ensures OrderOf(ch, order)
  {
    TableRenamesAccepted(ch);
    RetitledDistinct(ch);
    var gone := Gone(ch);
    DropOrder.DroppedDistinct(Retitled(ch), Titles(ch.news));
    forall t ensures t in order <==> t in gone { DropOrder.SameTables(order, gone, t); }
    forall i, j | 0 <= i < j < |order| ensures order[i].name != order[j].name {
      assert order[i] in gone && order[j] in gone;
      if order[i].name == order[j].name {
        DropOrder.OneOfAName(gone, order[i], order[j]);
        DropOrder.Multiplicity(gone, order[i]);
        OnePlace(order, i, j);
      }
    }
  }

  /** The dropped tables are the old ones whose name after the renames the new schema lacks. */
  lemma GoneHas(ch: Change, t: DropOrder.Table)
    requires WellNamed(ch)
    ensures t in Gone(ch) <==> exists i | 0 <= i < |ch.olds| :: t == Retitled(ch)[i] && t.name !in Titles(ch.news)
  {
    TableRenamesAccepted(ch);
    RetitledDistinct(ch);
    DropOrder.DroppedDistinct(Retitled(ch), Titles(ch.news));
  }

  lemma RenamedIsNew(ch: Change, c: string)
    requires WellNamed(ch) && Claimed(ch.renames, c)
    ensures Lookup(ch.renames, c) in Titles(ch.news)
  {
    TableRenamesAccepted(ch);
    LookupFound(ch.renames, c);
    var i :| 0 <= i < |ch.renames| && ch.renames[i].was == c && ch.renames[i].becomes == Lookup(ch.renames, c);
    assert ch.renames[i] in ch.renames;
  }

  /** A renamed table stays, so a name that goes was never renamed. */
  lemma GoneKeepsName(ch: Change, c: string)
    requires WellNamed(ch) && Lookup(ch.renames, c) !in Titles(ch.news)
    ensures Lookup(ch.renames, c) == c
  {
    LookupFound(ch.renames, c);
    if Claimed(ch.renames, c) { RenamedIsNew(ch, c); }
  }

  /** A reference into what goes is one the old schema declares. */
  ghost predicate OldRefs(ch: Change, refs: set<(string, string)>) {
    forall m, c | c !in Titles(ch.news) :: (m, c) in refs <==> RefersOld(ch, m, c)
  }

  lemma BlockedMeans(ch: Change, order: seq<DropOrder.Table>, refs: set<(string, string)>, i: nat, p: (string, string))
    requires WellNamed(ch) && OrderOf(ch, order) && OldRefs(ch, refs) && i < |order| && BlockedAt(refs, order, i, p)
    ensures KeptReference(ch) || !DropOrder.Safe(order)
  {
    var (m, c) := p;
    GoneHas(ch, order[i]);
    assert c !in Titles(ch.news);
    assert RefersOld(ch, m, c);
    var a, j :| 0 <= a < |ch.olds| && 0 <= j < |ch.olds[a].refs| && RefersAt(ch, a, j, m, c);
    GoneKeepsName(ch, ch.olds[a].refs[j]);
    if m !in Titles(ch.news) {
      var t := Retitled(ch)[a];
      GoneHas(ch, t);
      assert t in order;
      var k :| 0 <= k < |order| && order[k] == t;
      assert k > i;
      assert t.refs[j] == c;
      assert DropOrder.References(order[k], order[i]);
    }
  }

  lemma KeptBlocks(ch: Change, order: seq<DropOrder.Table>, refs: set<(string, string)>)
    requires WellNamed(ch) && Closed(ch.olds) && OrderOf(ch, order) && OldRefs(ch, refs) && KeptReference(ch)
    ensures Blocked(refs, order)
  {
    var a, j :| 0 <= a < |ch.olds| && 0 <= j < |ch.olds[a].refs| && ch.olds[a].refs[j] != ""
                && Lookup(ch.renames, ch.olds[a].shape.name) in Titles(ch.news) && Lookup(ch.renames, ch.olds[a].refs[j]) !in Titles(ch.news);
    var m, c := Lookup(ch.renames, ch.olds[a].shape.name), Lookup(ch.renames, ch.olds[a].refs[j]);
    assert RefersAt(ch, a, j, m, c);
    assert (m, c) in refs;
    assert ch.olds[a].refs[j] in Titles(ch.olds);
    var b :| 0 <= b < |ch.olds| && ch.olds[b].shape.name == ch.olds[a].refs[j];
    var t := Retitled(ch)[b];
    GoneHas(ch, t);
    assert t in order;
    var i :| 0 <= i < |order| && order[i] == t;
    forall k | 0 <= k < i ensures order[k].name != m { GoneHas(ch, order[k]); }
    assert BlockedAt(refs, order, i, (m, c));
  }

  lemma UnsafeBlocks(ch: Change, order: seq<DropOrder.Table>, refs: set<(string, string)>)
    requires WellNamed(ch) && OrderOf(ch, order) && OldRefs(ch, refs) && !DropOrder.Safe(order)
    ensures Blocked(refs, order)
  {
    var i, k :| 0 <= i < k < |order| && DropOrder.References(order[k], order[i]);
    GoneHas(ch, order[k]);
    GoneHas(ch, order[i]);
    var a :| 0 <= a < |ch.olds| && order[k] == Retitled(ch)[a];
    var b :| 0 <= b < |ch.olds| && order[i] == Retitled(ch)[b];
    var m, c := order[k].name, order[i].name;
    GoneKeepsName(ch, ch.olds[b].shape.name);
    var j :| 0 <= j < |order[k].refs| && order[k].refs[j] == c;
    assert c in Titles(ch.olds);
    assert RefersAt(ch, a, j, m, c);
    assert (m, c) in refs;
    assert BlockedAt(refs, order, i, (m, c));
  }

  lemma BlockedIff(ch: Change, order: seq<DropOrder.Table>, refs: set<(string, string)>)
    requires WellNamed(ch) && Closed(ch.olds) && OrderOf(ch, order) && OldRefs(ch, refs)
    ensures Blocked(refs, order) <==> KeptReference(ch) || !DropOrder.Safe(order)
  {
    hide WellNamed, Closed, OrderOf, OldRefs, KeptReference, DropOrder.Safe;
    if Blocked(refs, order) {
      var i, p :| 0 <= i < |order| && BlockedAt(refs, order, i, p);
      BlockedMeans(ch, order, refs, i, p);
    }
    if KeptReference(ch) { KeptBlocks(ch, order, refs); }
    if !DropOrder.Safe(order) { UnsafeBlocks(ch, order, refs); }
  }

  lemma DropsTitle(ch: Change, order: seq<DropOrder.Table>, c: string)
    requires WellNamed(ch) && OrderOf(ch, order)
    ensures Drops(order, c) <==> OldOf(ch, c).Some? && c !in Titles(ch.news)
  {
    if Drops(order, c) {
      var i :| 0 <= i < |order| && order[i].name == c;
      GoneHas(ch, order[i]);
    }
    if OldOf(ch, c).Some? && c !in Titles(ch.news) {
      var a :| 0 <= a < |ch.olds| && Lookup(ch.renames, ch.olds[a].shape.name) == c;
      GoneHas(ch, Retitled(ch)[a]);
      assert Retitled(ch)[a] in order;
    }
  }

  // ---- Changed tables -----------------------------------------------------------------------

  /** What stands under a name once the new tables are made and the dropped ones gone. */
  function KeptTable(ch: Change, c: string): Option<PgTable> {
    if c in Titles(ch.news) then MadeTable(ch, |ch.news|, c) else None
  }

  /** ... and the first n changed tables are done. */
  function DoneTable(ch: Change, n: nat, c: string): Option<PgTable>
    requires n <= |ch.news|
  {
    if NewTable(ch, n, c).Some? then NewTable(ch, n, c) else KeptTable(ch, c)
  }

  ghost predicate Done(ch: Change, n: nat, db: PgDb)
    requires n <= |ch.news|
  {
    forall c :: Get(db.tables, c) == DoneTable(ch, n, c)
  }

  lemma DoneKnown(ch: Change, n: nat, db: PgDb, c: string)
    requires n <= |ch.news| && Done(ch, n, db) && c in db.tables
    ensures Known(ch, c, db.tables[c])
  {
    hide OldTable, NewTable, Known;
    assert Get(db.tables, c) == DoneTable(ch, n, c);
    if NewTable(ch, n, c).Some? { KnownNew(ch, n, c); }
    else if OldTable(ch, c).Some? { KnownOld(ch, c); }
    else { KnownNew(ch, |ch.news|, c); }
  }

  lemma DoneNext(ch: Change, n: nat, db: PgDb, next: PgDb)
    requires 0 < n <= |ch.news| && DistinctTitles(ch.news) && Done(ch, n - 1, db)
    requires next.tables == db.tables[ch.news[n - 1].shape.name := PgOf(ch.news[n - 1].shape)]
    ensures Done(ch, n, next)
  {
    hide PgOf, KeptTable;
    forall c ensures Get(next.tables, c) == DoneTable(ch, n, c) {
      AmongNext(ch.news, n, c);
      assert Get(db.tables, c) == DoneTable(ch, n - 1, c);
    }
  }

  lemma PairReplayable(ch: Change, k: nat, db: PgDb, n: nat)
    requires Sound(ch) && k < |ch.news| && n <= |ch.news| && Done(ch, n, db) && !IsNew(ch, k)
    ensures var d := ch.news[k]; var o := OldOf(ch, d.shape.name).value;
            Replayable(o.shape, d.shape, ColumnRenames(o, d), OtherIndexes(db, d.shape.name))
  {
    var d := ch.news[k];
    var o := OldOf(ch, d.shape.name).value;
    var i :| 0 <= i < |ch.olds| && ch.olds[i] == o && Lookup(ch.renames, o.shape.name) == d.shape.name;
    assert !TableConflict(ch, k);
    hide Done, OldOf;
    assert ShapeOk(o.shape) && ShapeOk(d.shape);
    ColumnsAccepted(ch, k);
    HomeOfNew(ch, k);
    HomeOfOld(ch, i);
    forall t | t in db.tables && t != d.shape.name ensures Known(ch, t, db.tables[t]) { DoneKnown(ch, n, db, t); }
    hide Known, Home, WellNamed, Closed, Accepted, WellFormed, PredicatesFormed, NoReuse, KeysKept;
    FreeElsewhere(ch, db, d.shape.name, d.shape.indexes);
    FreeElsewhere(ch, db, d.shape.name, o.shape.indexes);
  }

  lemma HomeOfOld(ch: Change, i: nat)
    requires i < |ch.olds|
    ensures forall k | 0 <= k < |ch.olds[i].shape.indexes| :: Home(ch, ch.olds[i].shape.indexes[k].name, Lookup(ch.renames, ch.olds[i].shape.name))
  {
  }

  lemma ColumnsAccepted(ch: Change, n: nat)
    requires Sound(ch) && n < |ch.news| && !IsNew(ch, n) && !TableConflict(ch, n)
    ensures var d := ch.news[n]; var o := OldOf(ch, d.shape.name).value;
            && Accepted(ColumnNames(o.shape.columns), ColumnRenames(o, d)) && NoReuse(d.shape, ColumnRenames(o, d))
            && KeysKept(o.shape, d.shape, ColumnRenames(o, d))
  {
    var d := ch.news[n];
    var o := OldOf(ch, d.shape.name).value;
    var rs := ColumnRenames(o, d);
    assert NamesRetired(o, d) && ShapeOk(d.shape) && KeysKept(o.shape, d.shape, rs);
    hide OldOf, Closed, WellNamed, KeysKept;
    ClashIsConflict(o.shape.columns, d.shape.columns);
    MarkersAccepted(o.shape.columns, d.shape.columns, |d.shape.columns|);
    forall i | 0 <= i < |rs| ensures rs[i].becomes in ColumnNames(d.shape.columns) && rs[i].was !in ColumnNames(d.shape.columns) {
      MarkerFrom(o.shape.columns, d.shape.columns, |d.shape.columns|, rs[i]);
    }
  }

  /** The k-th table of the new schema, if both schemas have it, can be altered into its new shape. */
  predicate TableAlters(ch: Change, k: nat)
    requires k < |ch.news|
  {
    var o := OldOf(ch, ch.news[k].shape.name);
    o.Some? ==> Alterable(o.value.shape, ch.news[k].shape, ColumnRenames(o.value, ch.news[k]))
  }

  lemma DiffNext(ch: Change, n: nat, db: PgDb) returns (r: Option<PgDb>)
    requires Sound(ch) && 0 < n <= |ch.news| && Done(ch, n - 1, db) && !IsNew(ch, n - 1)
    ensures var d := ch.news[n - 1]; var o := OldOf(ch, d.shape.name).value;
            RunDb(db, Wrapped(d.shape.name, UpList(o.shape, d.shape, ColumnRenames(o, d)))) == r
    ensures (r.Some? <==> TableAlters(ch, n - 1)) && (r.Some? ==> Done(ch, n, r.value) && r.value.refs == db.refs)
  {
    hide *;
    HasOld(ch, n - 1);
    SoundIsNamed(ch);
    var d := ch.news[n - 1];
    var name, o := d.shape.name, OldOf(ch, d.shape.name).value;
    PairReplayable(ch, n - 1, db, n - 1);
    UpReplays(o.shape, d.shape, ColumnRenames(o, d), OtherIndexes(db, name));
    StillOld(ch, n, db);
    HeldUnder(db.tables, name, PgOf(o.shape));
    AltersIs(ch, n - 1);
    if TableAlters(ch, n - 1) {
      InsideRuns(db, name, UpList(o.shape, d.shape, ColumnRenames(o, d)), PgOf(d.shape));
      r := Some(db.(tables := db.tables[name := PgOf(d.shape)]));
      NewsDistinct(ch);
      DoneNext(ch, n, db, r.value);
    } else {
      InsideFails(db, name, UpList(o.shape, d.shape, ColumnRenames(o, d)));
      r := None;
    }
  }

  lemma HasOld(ch: Change, k: nat)
    requires k < |ch.news| && !IsNew(ch, k)
    ensures OldOf(ch, ch.news[k].shape.name).Some?
  {
    hide OldOf;
  }

  lemma HeldUnder<V>(m: map<string, V>, k: string, v: V)
    requires Get(m, k) == Some(v)
    ensures k in m && m[k] == v
  {
  }

  lemma AltersIs(ch: Change, k: nat)
    requires k < |ch.news|
    ensures IsNew(ch, k) ==> TableAlters(ch, k)
    ensures !IsNew(ch, k) ==>
              var o := OldOf(ch, ch.news[k].shape.name).value;
              TableAlters(ch, k) <==> Alterable(o.shape, ch.news[k].shape, ColumnRenames(o, ch.news[k]))
  {
    hide OldOf, Alterable, ColumnRenames;
  }

  lemma StillOld(ch: Change, n: nat, db: PgDb)
    requires WellNamed(ch) && 0 < n <= |ch.news| && Done(ch, n - 1, db) && !IsNew(ch, n - 1)
    ensures Get(db.tables, ch.news[n - 1].shape.name) == Some(PgOf(OldOf(ch, ch.news[n - 1].shape.name).value.shape))
  {
    NewsDistinct(ch);
    hide PgOf, WellNamed;
    OwnAmong(ch.news, n - 1, n - 1);
    assert Get(db.tables, ch.news[n - 1].shape.name) == DoneTable(ch, n - 1, ch.news[n - 1].shape.name);
  }

  lemma NewStays(ch: Change, n: nat, db: PgDb)
    requires WellNamed(ch) && 0 < n <= |ch.news| && Done(ch, n - 1, db) && IsNew(ch, n - 1)
    ensures Done(ch, n, db)
  {
    forall c ensures Get(db.tables, c) == DoneTable(ch, n, c) {
      assert Get(db.tables, c) == DoneTable(ch, n - 1, c);
      NewIsDone(ch, n, c);
    }
  }

  lemma NewIsDone(ch: Change, n: nat, c: string)
    requires WellNamed(ch) && 0 < n <= |ch.news| && IsNew(ch, n - 1)
    ensures DoneTable(ch, n, c) == DoneTable(ch, n - 1, c)
  {
    NewsDistinct(ch);
    hide *;
    SameUnlessNamed(ch, n, c);
    NewlyNamed(ch, n, ch.news[n - 1].shape.name);
  }

  lemma SameUnlessNamed(ch: Change, n: nat, c: string)
    requires 0 < n <= |ch.news|
    ensures c == ch.news[n - 1].shape.name || DoneTable(ch, n, c) == DoneTable(ch, n - 1, c)
  {
    hide PgOf, KeptTable, Among;
    AmongNext(ch.news, n, c);
  }

  lemma NewlyNamed(ch: Change, n: nat, name: string)
    requires DistinctTitles(ch.news) && 0 < n <= |ch.news| && IsNew(ch, n - 1) && name == ch.news[n - 1].shape.name
    ensures DoneTable(ch, n, name) == DoneTable(ch, n - 1, name)
  {
    hide PgOf, OldOf, Among;
    assert name in Titles(ch.news);
    OwnAmong(ch.news, |ch.news|, n - 1);
    OwnAmong(ch.news, n - 1, n - 1);
    OwnAmong(ch.news, n, n - 1);
  }

  lemma DiffStep(ch: Change, db: PgDb, n: nat, m: Option<PgDb>) returns (r: Option<PgDb>)
    requires Sound(ch) && 0 < n <= |ch.news| && m == RunDb(db, DiffSteps(ch, n - 1)) && (m.Some? ==> Done(ch, n - 1, m.value))
    ensures r == RunDb(db, DiffSteps(ch, n)) && (r.Some? <==> m.Some? && TableAlters(ch, n - 1))
    ensures r.Some? ==> Done(ch, n, r.value) && r.value.refs == m.value.refs
  {
    hide *;
    SoundIsNamed(ch);
    AltersIs(ch, n - 1);
    DiffsLast(ch, n);
    r := m;
    if IsNew(ch, n - 1) {
      if m.Some? { NewStays(ch, n, m.value); }
    } else {
      HasOld(ch, n - 1);
      var d := ch.news[n - 1];
      var o := OldOf(ch, d.shape.name).value;
      DbJoined(db, DiffSteps(ch, n - 1), Wrapped(d.shape.name, UpList(o.shape, d.shape, ColumnRenames(o, d))));
      if m.Some? { r := DiffNext(ch, n, m.value); }
    }
  }

  lemma DiffsLast(ch: Change, n: nat)
    requires 0 < n <= |ch.news|
    ensures IsNew(ch, n - 1) ==> DiffSteps(ch, n) == DiffSteps(ch, n - 1)
    ensures !IsNew(ch, n - 1) ==>
              var d := ch.news[n - 1]; var o := OldOf(ch, d.shape.name).value;
              DiffSteps(ch, n) == DiffSteps(ch, n - 1) + Wrapped(d.shape.name, UpList(o.shape, d.shape, ColumnRenames(o, d)))
  {
    hide OldOf, UpList, ColumnRenames, Wrapped;
  }

  /** The tables both schemas have are changed exactly when each of the first n can be altered. */
  lemma {:induction false} DiffsRun(ch: Change, db: PgDb, n: nat) returns (r: Option<PgDb>)
    requires Sound(ch) && n <= |ch.news| && Done(ch, 0, db)
    ensures RunDb(db, DiffSteps(ch, n)) == r
    ensures r.Some? <==> forall k | 0 <= k < n :: TableAlters(ch, k)
    ensures r.Some? ==> Done(ch, n, r.value) && r.value.refs == db.refs
  {
    hide RunDb, Done, TableAlters, Sound, Wrapped;
    if n == 0 {
      NoSteps(db);
      r := Some(db);
    } else {
      r := DiffsRun(ch, db, n - 1);
      r := DiffStep(ch, db, n, r);
    }
  }

  // ---- The replay ---------------------------------------------------------------------------

  /**
   * Each new table finds the tables it references and its indexes read, no table that stays references one that goes, the drop
   * order is safe, and every table that stays can be altered.
   */
  ghost predicate Feasible(ch: Change, order: seq<DropOrder.Table>) {
    && AllMakeable(ch, |ch.news|)
    && !KeptReference(ch) && DropOrder.Safe(order)
    && (forall k | 0 <= k < |ch.news| :: TableAlters(ch, k))
  }

  lemma RefsOfMade(ch: Change, before: set<(string, string)>, refs: set<(string, string)>)
    requires Closed(ch.news) && forall m, n :: (m, n) in before <==> RefersOld(ch, m, n)
    requires RefsMade(ch, |ch.news|, before, refs)
    ensures OldRefs(ch, refs)
  {
    hide RefersOld, IsNew;
    forall m: string, c: string | c !in Titles(ch.news) ensures (m, c) in refs <==> RefersOld(ch, m, c) {
      forall i | 0 <= i < |ch.news| ensures (m, c) !in OwnRefs(ch.news[i]) { }
    }
  }

  lemma DroppedDone(ch: Change, order: seq<DropOrder.Table>, db: PgDb, r: PgDb)
    requires WellNamed(ch) && OrderOf(ch, order) && Made(ch, |ch.news|, db)
    requires forall c :: Get(r.tables, c) == if Drops(order, c) then None else Get(db.tables, c)
    ensures Done(ch, 0, r)
  {
    hide WellNamed, OrderOf, OldOf, Drops, PgOf, Among;
    forall c ensures Get(r.tables, c) == DoneTable(ch, 0, c) {
      DropsTitle(ch, order, c);
      AmongNamed(ch.news, |ch.news|, c);
      assert Get(db.tables, c) == MadeTable(ch, |ch.news|, c);
      assert OldTable(ch, c).Some? <==> OldOf(ch, c).Some?;
    }
  }

  lemma AllDone(ch: Change, db: PgDb)
    requires Done(ch, |ch.news|, db)
    ensures db.tables == TableMap(ch.news)
  {
    hide PgOf;
    forall c ensures Get(db.tables, c) == Get(TableMap(ch.news), c) {
      AmongNamed(ch.news, |ch.news|, c);
      assert Get(db.tables, c) == DoneTable(ch, |ch.news|, c);
    }
    SameByGet(db.tables, TableMap(ch.news));
  }

  lemma DropPhase(ch: Change, order: seq<DropOrder.Table>, before: set<(string, string)>, db: PgDb) returns (r: Option<PgDb>)
    requires WellNamed(ch) && Closed(ch.olds) && Closed(ch.news) && OrderOf(ch, order) && Made(ch, |ch.news|, db)
    requires forall m, n :: (m, n) in before <==> RefersOld(ch, m, n)
    requires RefsMade(ch, |ch.news|, before, db.refs)
    ensures r == RunDb(db, DropSteps(order)) && (r.Some? <==> !KeptReference(ch) && DropOrder.Safe(order))
    ensures r.Some? ==> Done(ch, 0, r.value) && UpRefs(ch, r.value.refs)
  {
    RefsOfMade(ch, before, db.refs);
    hide RunDb, WellNamed, Closed, OrderOf, OldRefs, RefersOld, OwnRefs, RefsMade, KeptReference, Blocked, Made, Done, DropOrder.Safe;
    BlockedIff(ch, order, db.refs);
    r := DropsRun(db, order);
    if r.Some? {
      DroppedDone(ch, order, db, r.value);
      DroppedRefs(ch, order, before, db.refs, r.value.refs);
    }
  }

  /** A dropped table takes its references along, and only those. */
  lemma DroppedRefs(ch: Change, order: seq<DropOrder.Table>, before: set<(string, string)>, made: set<(string, string)>, left: set<(string, string)>)
    requires WellNamed(ch) && OrderOf(ch, order) && RefsMade(ch, |ch.news|, before, made)
    requires forall m, n :: (m, n) in before <==> RefersOld(ch, m, n)
    requires forall p :: p in left <==> p in made && !Drops(order, p.0)
    ensures UpRefs(ch, left)
  {
    hide WellNamed, OrderOf, RefersOld, NewRef;
    forall m, c ensures (m, c) in left <==> (RefersOld(ch, m, c) && m in Titles(ch.news)) || NewRef(ch, |ch.news|, (m, c)) {
      DropsTitle(ch, order, m);
      if RefersOld(ch, m, c) { ReferrerIsOld(ch, m, c); }
      if NewRef(ch, |ch.news|, (m, c)) { NewReferrer(ch, |ch.news|, m, c); }
    }
  }

  lemma ReferrerIsOld(ch: Change, m: string, c: string)
    requires RefersOld(ch, m, c)
    ensures OldOf(ch, m).Some?
  {
  }

  lemma NewReferrer(ch: Change, n: nat, m: string, c: string)
    requires n <= |ch.news| && NewRef(ch, n, (m, c))
    ensures m in Titles(ch.news) && OldOf(ch, m).None?
  {
    hide OldOf;
  }

  /**
   * Replaying the up list on the old database succeeds exactly when it is feasible, and then gives exactly the tables of
   * the new schema: renamed, new, changed and dropped ones, their columns and their indexes. The references are then those of
   * the tables that stayed and of the new ones.
   */
  lemma SchemaReplays(ch: Change, order: seq<DropOrder.Table>)
    requires Sound(ch) && multiset(order) == multiset(Gone(ch))
    ensures var r := RunDb(DbOf(ch.olds), UpDb(ch, order));
            (r.Some? <==> Feasible(ch, order)) && (r.Some? ==> r.value.tables == TableMap(ch.news) && UpRefs(ch, r.value.refs))
  {
    assert WellNamed(ch) && Closed(ch.olds) && Closed(ch.news);
    OrderIsOrder(ch, order);
    var renames, makes, drops, diffs := RenameTables(InOldOrder(ch, |ch.olds|)), MakeSteps(ch, |ch.news|), DropSteps(order), DiffSteps(ch, |ch.news|);
    assert UpDb(ch, order) == renames + (makes + (drops + diffs));
    var r1 := Retitling(ch);
    hide RunDb, UpDb, Sound, WellNamed, Closed, OrderOf, RefersOld, OldTable, OwnRefs, KeptReference, Made, Done, DropOrder.Safe, Gone;
    hide MakeSteps, DropSteps, DiffSteps, InOldOrder, RenameTables, AllMakeable, RefsMade, IsNew, TableMap, TableAlters, UpRefs;
    DbJoined(DbOf(ch.olds), renames, makes + (drops + diffs));
    DbJoined(r1, makes, drops + diffs);
    var r2 := MakesRun(ch, r1, |ch.news|);
    if r2.Some? {
      DbJoined(r2.value, drops, diffs);
      var r3 := DropPhase(ch, order, r1.refs, r2.value);
      if r3.Some? {
        var r4 := DiffsRun(ch, r3.value, |ch.news|);
        if r4.Some? { AllDone(ch, r4.value); }
      }
    }
  }
}
