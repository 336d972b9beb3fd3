/** The whole down list. */
module SchemaDown {
  // What the reversed down list of a whole-schema diff undoes, and what it cannot. The list takes the table diffs back in
  // the opposite order, each table from its new shape to its old one while the other tables stand as they are, then makes
  // the dropped tables again, the last one first, drops the new tables, the last one first, and gives renamed tables their
  // old names. When a dropped table had an index, the reversal asks for the index before the table; when it referenced a
  // renamed table, it looks for that one under its old name. Either way the list fails whatever else the diff held.

  import opened Options
  import opened OrderedSeqs
  import opened Schema
  import opened Renames
  import opened PgReplay
  import opened PgDown
  import opened SchemaDiff
  import opened SchemaReplay
  import opened SchemaUp
  import DropOrder

  // ---- Changed tables -----------------------------------------------------------------------

  /** The k-th table of the new schema, if both schemas have it, can be altered back into its old shape. */
  predicate TableReverts(ch: Change, k: nat)
    requires k < |ch.news|
  {
    var o := OldOf(ch, ch.news[k].shape.name);
    o.Some? ==> Revertible(o.value.shape, ch.news[k].shape, ColumnRenames(o.value, ch.news[k]))
  }

  lemma WrappedReversed(name: string, ss: seq<Step>)
    ensures Reverse(Wrapped(name, ss)) == Wrapped(name, Reverse(ss))
  {
    hide Reverse;
  }

  lemma RevertsIs(ch: Change, k: nat)
    requires k < |ch.news|
    ensures IsNew(ch, k) ==> TableReverts(ch, k)
    ensures !IsNew(ch, k) ==>
              var o := OldOf(ch, ch.news[k].shape.name).value;
              TableReverts(ch, k) <==> Revertible(o.shape, ch.news[k].shape, ColumnRenames(o, ch.news[k]))
  {
    hide OldOf, Revertible, ColumnRenames;
  }

  /** The down list of one pair of tables, run on the new one. */
  lemma PairDown(ch: Change, n: nat, db: PgDb)
    requires Sound(ch) && 0 < n <= |ch.news| && Done(ch, n, db) && !IsNew(ch, n - 1)
    ensures var d := ch.news[n - 1]; var o := OldOf(ch, d.shape.name).value;
            && d.shape.name in db.tables
            && RunPg(db.tables[d.shape.name], DownList(o.shape, d.shape, ColumnRenames(o, d)), OtherIndexes(db, d.shape.name)) ==
               if TableReverts(ch, n - 1) then Some(PgOf(o.shape)) else None
  {
    hide *;
    var d := ch.news[n - 1];
    HasOld(ch, n - 1);
    SoundIsNamed(ch);
    PairReplayable(ch, n - 1, db, n);
    NewsAre(ch, n, db);
    RevertsIs(ch, n - 1);
    var o := OldOf(ch, d.shape.name).value;
    DownUndoesUp(o.shape, d.shape, ColumnRenames(o, d), OtherIndexes(db, d.shape.name));
  }

  lemma NewsAre(ch: Change, n: nat, db: PgDb)
    requires WellNamed(ch) && 0 < n <= |ch.news| && Done(ch, n, db)
    ensures ch.news[n - 1].shape.name in db.tables && db.tables[ch.news[n - 1].shape.name] == PgOf(ch.news[n - 1].shape)
  {
    NewsDistinct(ch);
    StandsNew(ch, n, db);
    hide Done, PgOf, WellNamed;
  }

  lemma UndiffOne(ch: Change, n: nat, db: PgDb) returns (r: Option<PgDb>)
    requires Sound(ch) && 0 < n <= |ch.news| && Done(ch, n, db) && !IsNew(ch, n - 1)
    ensures RunDb(db, Undone(ch, n)) == r && (r.Some? <==> TableReverts(ch, n - 1))
    ensures r.Some? ==> Done(ch, n - 1, r.value) && r.value.refs == db.refs
  {
    var d := ch.news[n - 1];
    var name, o := d.shape.name, OldOf(ch, d.shape.name).value;
    PairDown(ch, n, db);
    SoundIsNamed(ch);
    UndoneIs(ch, n);
    hide *;
    NewsDistinct(ch);
    if TableReverts(ch, n - 1) {
      InsideRuns(db, name, DownList(o.shape, d.shape, ColumnRenames(o, d)), PgOf(o.shape));
      r := Some(db.(tables := db.tables[name := PgOf(o.shape)]));
      BackToOld(ch, n, db, r.value);
    } else {
      InsideFails(db, name, DownList(o.shape, d.shape, ColumnRenames(o, d)));
      r := None;
    }
  }

  /** What takes the n-th table back. */
  function Undone(ch: Change, n: nat): seq<DbStep>
    requires 0 < n <= |ch.news| && !IsNew(ch, n - 1)
  {
    var d := ch.news[n - 1];
    var o := OldOf(ch, d.shape.name).value;
    Wrapped(d.shape.name, DownList(o.shape, d.shape, ColumnRenames(o, d)))
  }

  lemma UndoneIs(ch: Change, n: nat)
    requires 0 < n <= |ch.news| && !IsNew(ch, n - 1)
    ensures var d := ch.news[n - 1]; var o := OldOf(ch, d.shape.name).value;
            Undone(ch, n) == Wrapped(d.shape.name, DownList(o.shape, d.shape, ColumnRenames(o, d)))
  {
  }

  lemma StandsNew(ch: Change, n: nat, db: PgDb)
    requires DistinctTitles(ch.news) && 0 < n <= |ch.news| && Done(ch, n, db)
    ensures Get(db.tables, ch.news[n - 1].shape.name) == Some(PgOf(ch.news[n - 1].shape))
  {
    hide PgOf, KeptTable, Among;
    OwnAmong(ch.news, n, n - 1);
    assert Get(db.tables, ch.news[n - 1].shape.name) == DoneTable(ch, n, ch.news[n - 1].shape.name);
  }

  lemma BackToOld(ch: Change, n: nat, db: PgDb, next: PgDb)
    requires DistinctTitles(ch.news) && 0 < n <= |ch.news| && Done(ch, n, db) && !IsNew(ch, n - 1)
    requires var name := ch.news[n - 1].shape.name; next.tables == db.tables[name := PgOf(OldOf(ch, name).value.shape)]
    ensures Done(ch, n - 1, next)
  {
    var name := ch.news[n - 1].shape.name;
    OldStands(ch, n);
    hide PgOf, DoneTable, OldOf;
    forall c ensures Get(next.tables, c) == DoneTable(ch, n - 1, c) {
      assert Get(db.tables, c) == DoneTable(ch, n, c);
      SameUnlessNamed(ch, n, c);
    }
  }

  lemma OldStands(ch: Change, n: nat)
    requires DistinctTitles(ch.news) && 0 < n <= |ch.news| && !IsNew(ch, n - 1)
    ensures var name := ch.news[n - 1].shape.name; DoneTable(ch, n - 1, name) == Some(PgOf(OldOf(ch, name).value.shape))
  {
    hide PgOf, Among;
    OwnAmong(ch.news, n - 1, n - 1);
    assert ch.news[n - 1].shape.name in Titles(ch.news);
  }

  lemma UndiffsLast(ch: Change, n: nat)
    requires 0 < n <= |ch.news| && !IsNew(ch, n - 1)
    ensures var d := ch.news[n - 1]; var o := OldOf(ch, d.shape.name).value;
            Reverse(UndiffSteps(ch, n)) ==
            Wrapped(d.shape.name, DownList(o.shape, d.shape, ColumnRenames(o, d))) + Reverse(UndiffSteps(ch, n - 1))
  {
    var d := ch.news[n - 1];
    var o := OldOf(ch, d.shape.name).value;
    var back := DownElements(o.shape, d.shape, ColumnRenames(o, d));
    hide Reverse, DownElements, ColumnRenames, OldOf;
    ReverseJoined(UndiffSteps(ch, n - 1), Wrapped(d.shape.name, back));
    WrappedReversed(d.shape.name, back);
  }

  /** The first n tables of the new schema can be altered back. */
  predicate AllRevert(ch: Change, n: nat)
    requires n <= |ch.news|
  {
    forall k | 0 <= k < n :: TableReverts(ch, k)
  }

  lemma RevertMore(ch: Change, n: nat)
    requires 0 < n <= |ch.news|
    ensures AllRevert(ch, n) <==> AllRevert(ch, n - 1) && TableReverts(ch, n - 1)
  {
    hide TableReverts;
  }

  lemma {:induction false} UndiffsRun(ch: Change, db: PgDb, n: nat) returns (r: Option<PgDb>)
    requires Sound(ch) && n <= |ch.news| && Done(ch, n, db)
    ensures RunDb(db, Reverse(UndiffSteps(ch, n))) == r && (r.Some? <==> AllRevert(ch, n))
    ensures r.Some? ==> Done(ch, 0, r.value) && r.value.refs == db.refs
    decreases n
  {
    hide *;
    if n == 0 {
      UndiffNone(ch, db);
      r := Some(db);
    } else {
      RevertsIs(ch, n - 1);
      RevertMore(ch, n);
      SoundIsNamed(ch);
      if IsNew(ch, n - 1) {
        NewWasThere(ch, n, db);
        NothingToUndo(ch, n);
        r := UndiffsRun(ch, db, n - 1);
      } else {
        r := UndiffOne(ch, n, db);
        UndiffJoined(ch, db, n);
        if r.Some? { r := UndiffsRun(ch, r.value, n - 1); }
      }
    }
  }

  lemma NothingToUndo(ch: Change, n: nat)
    requires 0 < n <= |ch.news| && IsNew(ch, n - 1)
    ensures UndiffSteps(ch, n) == UndiffSteps(ch, n - 1)
  {
    hide OldOf, DownElements;
  }

  lemma NewWasThere(ch: Change, n: nat, db: PgDb)
    requires WellNamed(ch) && 0 < n <= |ch.news| && Done(ch, n, db) && IsNew(ch, n - 1)
    ensures Done(ch, n - 1, db)
  {
    hide WellNamed, DoneTable, IsNew;
    forall c ensures Get(db.tables, c) == DoneTable(ch, n - 1, c) { NewIsDone(ch, n, c); }
  }

  lemma UndiffNone(ch: Change, db: PgDb)
    ensures RunDb(db, Reverse(UndiffSteps(ch, 0))) == Some(db) && AllRevert(ch, 0)
  {
    NoSteps(db);
    assert Reverse(UndiffSteps(ch, 0)) == [];
  }

  lemma UndiffJoined(ch: Change, db: PgDb, n: nat)
    requires 0 < n <= |ch.news| && !IsNew(ch, n - 1)
    ensures RunDb(db, Reverse(UndiffSteps(ch, n))) ==
            match RunDb(db, Undone(ch, n)) case None => None case Some(m) => RunDb(m, Reverse(UndiffSteps(ch, n - 1)))
  {
    hide RunDb, UndiffSteps, Reverse, OldOf, DownList, ColumnRenames;
    UndiffsLast(ch, n);
    DbJoined(db, Undone(ch, n), Reverse(UndiffSteps(ch, n - 1)));
  }

  lemma StartsDone(ch: Change, db: PgDb)
    requires db.tables == TableMap(ch.news)
    ensures Done(ch, |ch.news|, db)
  {
    hide PgOf;
    forall c ensures Get(TableMap(ch.news), c) == DoneTable(ch, |ch.news|, c) { AmongNamed(ch.news, |ch.news|, c); }
  }

  // ---- Dropped tables with indexes ----------------------------------------------------------

  /** No step of the list makes a table of this name, or renames one to it. */
  predicate NeverMade(ss: seq<DbStep>, name: string) {
    forall i | 0 <= i < |ss| :: !(ss[i].Make? && ss[i].table.shape.name == name) && !(ss[i].RenameTo? && ss[i].to == name)
  }

  lemma {:induction false} StaysAbsent(db: PgDb, ss: seq<DbStep>, name: string)
    requires NeverMade(ss, name) && name !in db.tables && RunDb(db, ss).Some?
    ensures name !in RunDb(db, ss).value.tables
    decreases |ss|
  {
    hide ExecutePg, CanMake, OtherIndexes, MovedRefs, OwnRefs;
    if ss != [] {
      forall i | 0 <= i < |ss[1..]| ensures ss[1..][i] == ss[i + 1] { }
      StaysAbsent(ExecuteDb(db, ss[0]).value, ss[1..], name);
    }
  }

  lemma {:induction false} UndiffNames(ch: Change, n: nat, s: DbStep)
    requires n <= |ch.news| && s in UndiffSteps(ch, n)
    ensures s.Inside?
  {
    hide DownElements, OldOf;
    if n > 0 && s in UndiffSteps(ch, n - 1) { UndiffNames(ch, n - 1, s); }
  }

  /** The name of a dropped table was never changed. */
  lemma GoneName(ch: Change, order: seq<DropOrder.Table>, k: nat)
    requires WellNamed(ch) && OrderOf(ch, order) && k < |order|
    ensures OldOf(ch, order[k].name).Some? && OldOf(ch, order[k].name).value.shape.name == order[k].name
    ensures order[k].name !in Titles(ch.news)
  {
    GoneHas(ch, order[k]);
    var i :| 0 <= i < |ch.olds| && order[k] == Retitled(ch)[i];
    TableRenamesAccepted(ch);
    OldOfIs(ch, i);
    GoneKeepsName(ch, ch.olds[i].shape.name);
  }

  /** In the reversed list the last index of a dropped table comes before the table. */
  lemma IndexFirst(db: PgDb, d: Declared, rest: seq<DbStep>)
    requires d.shape.indexes != [] && d.shape.name !in db.tables
    ensures RunDb(db, Reverse(Whole(d)) + rest) == None
  {
    var n := |d.shape.indexes|;
    var all := Reverse(Whole(d)) + rest;
    assert MakeIndexes(d.shape.indexes, n) == MakeIndexes(d.shape.indexes, n - 1) + [MakeIndex(d.shape.indexes[n - 1])];
    MakeIndexesLength(d.shape.indexes, n);
    hide Reverse, MakeIndexes;
    assert all[0] == Inside(d.shape.name, MakeIndex(d.shape.indexes[n - 1]));
  }

  lemma {:induction false} MakeIndexesLength(xs: seq<Index>, n: nat)
    requires n <= |xs|
    ensures |MakeIndexes(xs, n)| == n
  {
    if n > 0 { MakeIndexesLength(xs, n - 1); }
  }

  /** The reversed list of the first n tables begins with the n-th. */
  lemma RemakeLast(ch: Change, order: seq<DropOrder.Table>, n: nat, rest: seq<DbStep>)
    requires 0 < n <= |order| && OldOf(ch, order[n - 1].name).Some?
    ensures var o := OldOf(ch, order[n - 1].name).value;
            Reverse(RemakeSteps(ch, order, n)) + rest == Reverse(Whole(o)) + (Reverse(RemakeSteps(ch, order, n - 1)) + rest)
  {
    var o := OldOf(ch, order[n - 1].name).value;
    hide Reverse, OldOf, Whole;
    ReverseJoined(RemakeSteps(ch, order, n - 1), Whole(o));
    JoinedThree(Reverse(Whole(o)), Reverse(RemakeSteps(ch, order, n - 1)), rest);
  }

  lemma JoinedThree<T>(a: seq<T>, b: seq<T>, c: seq<T>)
    ensures (a + b) + c == a + (b + c)
  {
  }

  lemma {:induction false} RemakeFails(ch: Change, order: seq<DropOrder.Table>, n: nat, k: nat, db: PgDb, rest: seq<DbStep>)
    requires WellNamed(ch) && OrderOf(ch, order) && k < n <= |order| && order[k].name !in db.tables
    requires OldOf(ch, order[k].name).Some? && OldOf(ch, order[k].name).value.shape.indexes != []
    ensures RunDb(db, Reverse(RemakeSteps(ch, order, n)) + rest) == None
    decreases n
  {
    assert DropOrder.DistinctNames(order);
    hide WellNamed, OrderOf, OldOf, Reverse, RemakeSteps, Whole, RunDb;
    GoneName(ch, order, k);
    GoneName(ch, order, n - 1);
    var o := OldOf(ch, order[n - 1].name).value;
    var more := Reverse(RemakeSteps(ch, order, n - 1)) + rest;
    RemakeLast(ch, order, n, rest);
    if k == n - 1 {
      IndexFirst(db, o, more);
    } else {
      WholeMakes(o, order[k].name);
      DbJoined(db, Reverse(Whole(o)), more);
      if RunDb(db, Reverse(Whole(o))).Some? {
        StaysAbsent(db, Reverse(Whole(o)), order[k].name);
        RemakeFails(ch, order, n - 1, k, RunDb(db, Reverse(Whole(o))).value, rest);
      }
    }
  }

  lemma WholeMakes(d: Declared, name: string)
    requires d.shape.name != name
    ensures NeverMade(Reverse(Whole(d)), name)
  {
    hide Reverse;
    var ss := Whole(d);
    forall i | 0 <= i < |ss| ensures Reverse(ss)[i] == ss[|ss| - 1 - i] { }
  }

  lemma UndiffMakes(ch: Change, name: string)
    ensures NeverMade(Reverse(UndiffSteps(ch, |ch.news|)), name)
  {
    var ss := UndiffSteps(ch, |ch.news|);
    hide Reverse, UndiffSteps;
    forall i | 0 <= i < |ss| ensures Reverse(ss)[i].Inside? { UndiffNames(ch, |ch.news|, Reverse(ss)[i]); }
  }

  /** A diff that drops a table with an index cannot be taken back: the reversal puts the index before the table. */
  lemma DroppedIndexStopsDown(ch: Change, order: seq<DropOrder.Table>, db: PgDb, k: nat)
    requires WellNamed(ch) && multiset(order) == multiset(Gone(ch)) && db.tables == TableMap(ch.news) && k < |order|
    requires OldOf(ch, order[k].name).Some? && OldOf(ch, order[k].name).value.shape.indexes != []
    ensures RunDb(db, DownDb(ch, order)) == None
  {
    OrderIsOrder(ch, order);
    GoneName(ch, order, k);
    var name := order[k].name;
    assert name !in db.tables;
    var a, b, c, d := RenameBack(InOldOrder(ch, |ch.olds|)), UnmakeSteps(ch, |ch.news|), RemakeSteps(ch, order, |order|), UndiffSteps(ch, |ch.news|);
    UndiffMakes(ch, name);
    DownDbIs(ch, order);
    hide *;
    DbJoined(db, Reverse(d), Reverse(c) + (Reverse(b) + Reverse(a)));
    if RunDb(db, Reverse(d)).Some? {
      StaysAbsent(db, Reverse(d), name);
      RemakeFails(ch, order, |order|, k, RunDb(db, Reverse(d)).value, Reverse(b) + Reverse(a));
    }
  }

  lemma DownDbIs(ch: Change, order: seq<DropOrder.Table>)
    ensures DownDb(ch, order) ==
            Reverse(UndiffSteps(ch, |ch.news|)) + (Reverse(RemakeSteps(ch, order, |order|))
            + (Reverse(UnmakeSteps(ch, |ch.news|)) + Reverse(RenameBack(InOldOrder(ch, |ch.olds|)))))
  {
    hide Reverse, RenameBack, InOldOrder, UnmakeSteps, RemakeSteps, UndiffSteps;
    ReverseNested(RenameBack(InOldOrder(ch, |ch.olds|)), UnmakeSteps(ch, |ch.news|), RemakeSteps(ch, order, |order|), UndiffSteps(ch, |ch.news|));
  }

  lemma ReverseNested<T>(a: seq<T>, b: seq<T>, c: seq<T>, d: seq<T>)
    ensures Reverse(a + (b + (c + d))) == Reverse(d) + (Reverse(c) + (Reverse(b) + Reverse(a)))
  {
    hide Reverse;
    ReverseJoined(a, b + (c + d));
    ReverseJoined(b, c + d);
    ReverseJoined(c, d);
    assert ((Reverse(d) + Reverse(c)) + Reverse(b)) + Reverse(a) == Reverse(d) + (Reverse(c) + (Reverse(b) + Reverse(a)));
  }

  // ---- Dropped tables made again ------------------------------------------------------------

  predicate Unindexed(ch: Change, order: seq<DropOrder.Table>, k: nat)
    requires k < |order|
  {
    var o := OldOf(ch, order[k].name);
    o.Some? && o.value.shape.indexes == []
  }

  /** The k-th dropped table references no table that was renamed. */
  predicate Unrenamed(ch: Change, order: seq<DropOrder.Table>, k: nat)
    requires k < |order|
  {
    forall j | 0 <= j < |order[k].refs| && order[k].refs[j] != "" :: !Claimed(ch.renames, order[k].refs[j])
  }

  /** What it references stands under the name it was declared with. */
  ghost predicate Finds(ch: Change, order: seq<DropOrder.Table>, k: nat)
    requires k < |order|
  {
    forall j | 0 <= j < |order[k].refs| && order[k].refs[j] != "" ::
      Claimed(ch.renames, order[k].refs[j]) ==> order[k].refs[j] in Titles(ch.news)
  }

  /** What stands under a name once the dropped tables from the n-th on are made again. */
  function RemadeTable(ch: Change, order: seq<DropOrder.Table>, n: nat, c: string): Option<PgTable>
    requires n <= |order|
  {
    if Drops(order[n..], c) then OldTable(ch, c) else KeptTable(ch, c)
  }

  /** One of the dropped tables from the n-th on declares the reference. */
  predicate RemadeRef(order: seq<DropOrder.Table>, n: nat, p: (string, string)) {
    exists k, j | n <= k < |order| && 0 <= j < |order[k].refs| :: order[k].refs[j] != "" && p == (order[k].name, order[k].refs[j])
  }

  ghost predicate Remade(ch: Change, order: seq<DropOrder.Table>, n: nat, before: set<(string, string)>, db: PgDb)
    requires n <= |order|
  {
    && (forall c :: Get(db.tables, c) == RemadeTable(ch, order, n, c))
    && (forall p :: p in db.refs <==> p in before || RemadeRef(order, n, p))
  }

  lemma DropsFrom(order: seq<DropOrder.Table>, n: nat, c: string)
    requires n <= |order|
    ensures Drops(order[n..], c) <==> exists i | n <= i < |order| :: order[i].name == c
  {
    if i :| n <= i < |order| && order[i].name == c { assert order[n..][i - n].name == c; }
    if i :| 0 <= i < |order[n..]| && order[n..][i].name == c { assert order[n + i].name == c; }
  }

  /** A dropped table as the old schema declares it. */
  lemma GoneIsOld(ch: Change, order: seq<DropOrder.Table>, k: nat) returns (b: nat)
    requires WellNamed(ch) && OrderOf(ch, order) && k < |order|
    ensures b < |ch.olds| && OldOf(ch, order[k].name) == Some(ch.olds[b]) && ch.olds[b].shape.name == order[k].name
    ensures ch.olds[b].refs == order[k].refs && order[k].name !in Titles(ch.news)
  {
    GoneName(ch, order, k);
    GoneHas(ch, order[k]);
    TableRenamesAccepted(ch);
    var i :| 0 <= i < |ch.olds| && order[k] == Retitled(ch)[i];
    OldOfIs(ch, i);
    b := i;
  }

  lemma NotYet(ch: Change, order: seq<DropOrder.Table>, n: nat, before: set<(string, string)>, db: PgDb)
    requires OrderOf(ch, order) && n < |order| && order[n].name !in Titles(ch.news) && Remade(ch, order, n + 1, before, db)
    ensures order[n].name !in db.tables
  {
    DropsFrom(order, n + 1, order[n].name);
    assert Get(db.tables, order[n].name) == RemadeTable(ch, order, n + 1, order[n].name);
  }

  /** What a dropped table references stands again, or stayed, unless it was renamed. */
  lemma ReferenceStands(ch: Change, order: seq<DropOrder.Table>, n: nat, before: set<(string, string)>, db: PgDb, r: string)
    requires WellNamed(ch) && OrderOf(ch, order) && DropOrder.Safe(order) && n < |order| && Remade(ch, order, n + 1, before, db)
    requires r in Titles(ch.olds) && r in order[n].refs && r != order[n].name
    ensures r in db.tables <==> (Claimed(ch.renames, r) ==> r in Titles(ch.news))
  {
    hide WellNamed, OrderOf, PgOf, OldOf, DropOrder.Safe;
    LookupFound(ch.renames, r);
    var a :| 0 <= a < |ch.olds| && ch.olds[a].shape.name == r;
    StandsHere(ch, order, n + 1, r);
    assert Get(db.tables, r) == RemadeTable(ch, order, n + 1, r);
    if !Claimed(ch.renames, r) {
      UnclaimedStands(ch, order, n, r, a);
    } else {
      ClaimedIsNot(ch, order, n + 1, r);
    }
  }

  lemma StandsHere(ch: Change, order: seq<DropOrder.Table>, n: nat, c: string)
    requires n <= |order|
    ensures RemadeTable(ch, order, n, c).Some? <==>
            if Drops(order[n..], c) then OldOf(ch, c).Some? else c in Titles(ch.news)
  {
    hide PgOf, OldOf;
    if c in Titles(ch.news) { AmongNamed(ch.news, |ch.news|, c); }
  }

  lemma UnclaimedStands(ch: Change, order: seq<DropOrder.Table>, n: nat, r: string, a: nat)
    requires WellNamed(ch) && OrderOf(ch, order) && DropOrder.Safe(order) && n < |order| && r in order[n].refs && r != order[n].name
    requires a < |ch.olds| && ch.olds[a].shape.name == r && !Claimed(ch.renames, r) && Lookup(ch.renames, r) == r
    ensures if Drops(order[n + 1..], r) then OldOf(ch, r).Some? else r in Titles(ch.news)
  {
    hide *;
    TableRenamesAccepted(ch);
    NewsDistinct(ch);
    OldOfIs(ch, a);
    DropsFrom(order, n + 1, r);
    if r !in Titles(ch.news) { var i := DroppedLater(ch, order, n, a); }
  }

  /** What a dropped table references goes after it, when it goes. */
  lemma DroppedLater(ch: Change, order: seq<DropOrder.Table>, n: nat, a: nat) returns (i: nat)
    requires WellNamed(ch) && OrderOf(ch, order) && DropOrder.Safe(order) && n < |order| && a < |ch.olds|
    requires ch.olds[a].shape.name in order[n].refs && ch.olds[a].shape.name != order[n].name
    requires Lookup(ch.renames, ch.olds[a].shape.name) == ch.olds[a].shape.name && ch.olds[a].shape.name !in Titles(ch.news)
    ensures n < i < |order| && order[i].name == ch.olds[a].shape.name
  {
    hide WellNamed;
    var t := Retitled(ch)[a];
    GoneHas(ch, t);
    var k :| 0 <= k < |order| && order[k] == t;
    assert DropOrder.References(order[n], order[k]);
    i := k;
  }

  /** A dropped table was not renamed. */
  lemma OwnUnclaimed(ch: Change, order: seq<DropOrder.Table>, n: nat)
    requires WellNamed(ch) && OrderOf(ch, order) && n < |order|
    ensures !Claimed(ch.renames, order[n].name)
  {
    GoneHas(ch, order[n]);
    var a :| 0 <= a < |ch.olds| && order[n] == Retitled(ch)[a];
    GoneKeepsName(ch, ch.olds[a].shape.name);
    if Claimed(ch.renames, order[n].name) { RenamedIsNew(ch, order[n].name); }
  }

  /** The old name of a renamed table is not a dropped one's. */
  lemma ClaimedIsNot(ch: Change, order: seq<DropOrder.Table>, n: nat, r: string)
    requires WellNamed(ch) && OrderOf(ch, order) && n <= |order| && Claimed(ch.renames, r)
    ensures !Drops(order[n..], r)
  {
    DropsFrom(order, n, r);
    hide WellNamed, OrderOf, Claimed;
    forall i | n <= i < |order| ensures order[i].name != r { OwnUnclaimed(ch, order, i); }
  }

  lemma CanRemakeIff(ch: Change, order: seq<DropOrder.Table>, n: nat, before: set<(string, string)>, db: PgDb, o: Declared)
    requires WellNamed(ch) && Closed(ch.olds) && OrderOf(ch, order) && DropOrder.Safe(order) && n < |order|
    requires Remade(ch, order, n + 1, before, db) && o in ch.olds && o.shape.name == order[n].name && o.refs == order[n].refs
    ensures CanMake(db.tables, o) <==> Finds(ch, order, n)
  {
    hide WellNamed, Remade, OrderOf, DropOrder.Safe, Claimed;
    var b :| 0 <= b < |ch.olds| && ch.olds[b] == o;
    OwnUnclaimed(ch, order, n);
    forall j | 0 <= j < |o.refs| && o.refs[j] != "" && o.refs[j] != o.shape.name
      ensures o.refs[j] in db.tables <==> (Claimed(ch.renames, o.refs[j]) ==> o.refs[j] in Titles(ch.news))
    {
      assert ch.olds[b].refs[j] in Titles(ch.olds);
      ReferenceStands(ch, order, n, before, db, o.refs[j]);
    }
  }

  lemma RemadeMore(ch: Change, order: seq<DropOrder.Table>, n: nat, before: set<(string, string)>, db: PgDb, next: PgDb, o: Declared)
    requires n < |order| && Remade(ch, order, n + 1, before, db) && OldOf(ch, order[n].name) == Some(o) && o.shape.name == order[n].name
    requires o.refs == order[n].refs && next == PgDb(db.tables[o.shape.name := PgOf(o.shape)], db.refs + OwnRefs(o))
    ensures Remade(ch, order, n, before, next)
  {
    hide PgOf, OldOf, KeptTable, RemadeRef;
    forall c ensures Get(next.tables, c) == RemadeTable(ch, order, n, c) {
      assert Get(db.tables, c) == RemadeTable(ch, order, n + 1, c);
      DropsFrom(order, n, c);
      DropsFrom(order, n + 1, c);
    }
    forall p ensures p in next.refs <==> p in before || RemadeRef(order, n, p) { RemadeRefMore(order, n, p, o); }
  }

  lemma RemadeRefMore(order: seq<DropOrder.Table>, n: nat, p: (string, string), o: Declared)
    requires n < |order| && o.shape.name == order[n].name && o.refs == order[n].refs
    ensures RemadeRef(order, n, p) <==> RemadeRef(order, n + 1, p) || p in OwnRefs(o)
  {
    if RemadeRef(order, n, p) {
      var k, j :| n <= k < |order| && 0 <= j < |order[k].refs| && order[k].refs[j] != "" && p == (order[k].name, order[k].refs[j]);
      if k > n { assert RemadeRef(order, n + 1, p); }
    }
  }

  /** The n-th dropped table is made again exactly when it had no index and finds what it references. */
  lemma RemakeOne(ch: Change, order: seq<DropOrder.Table>, n: nat, before: set<(string, string)>, db: PgDb) returns (r: Option<PgDb>)
    requires Sound(ch) && OrderOf(ch, order) && DropOrder.Safe(order) && n < |order| && Remade(ch, order, n + 1, before, db)
    ensures OldOf(ch, order[n].name).Some? && RunDb(db, Reverse(Whole(OldOf(ch, order[n].name).value))) == r
    ensures (r.Some? <==> Unindexed(ch, order, n) && Finds(ch, order, n)) && (r.Some? ==> Remade(ch, order, n, before, r.value))
  {
    hide *;
    SoundParts(ch);
    var b := GoneIsOld(ch, order, n);
    var o := ch.olds[b];
    NotYet(ch, order, n, before, db);
    CanRemakeIff(ch, order, n, before, db, o);
    UnindexedIs(ch, order, n);
    if o.shape.indexes != [] {
      IndexFirst(db, o, []);
      NothingMore(Reverse(Whole(o)));
      r := None;
    } else {
      OnlyMake(db, o);
      if CanMake(db.tables, o) {
        OldShapeIsOk(ch, order[n].name);
        WholeRuns(db, o);
        NoIndexReads(o.shape);
        r := Some(PgDb(db.tables[o.shape.name := PgOf(o.shape)], db.refs + OwnRefs(o)));
        RemadeMore(ch, order, n, before, db, r.value, o);
      } else {
        WholeFails(db, o);
        r := None;
      }
    }
  }

  lemma SoundParts(ch: Change)
    requires Sound(ch)
    ensures WellNamed(ch) && Closed(ch.olds) && Closed(ch.news)
  {
  }

  lemma UnindexedIs(ch: Change, order: seq<DropOrder.Table>, k: nat)
    requires k < |order| && OldOf(ch, order[k].name).Some?
    ensures Unindexed(ch, order, k) <==> OldOf(ch, order[k].name).value.shape.indexes == []
  {
  }

  lemma NothingMore<T>(s: seq<T>)
    ensures s + [] == s
  {
  }

  lemma OnlyMake(db: PgDb, o: Declared)
    requires o.shape.indexes == []
    ensures Reverse(Whole(o)) == Whole(o) && NamesFree(o.shape.indexes, OtherIndexes(db, o.shape.name))
  {
    assert Whole(o) == [Make(o)];
  }

  lemma NoIndexReads(t: Table)
    requires t.indexes == []
    ensures IndexesRead(t)
  {
  }

  lemma OldShapeIsOk(ch: Change, c: string)
    requires Sound(ch) && OldOf(ch, c).Some?
    ensures ShapeOk(OldOf(ch, c).value.shape)
  {
    hide ShapeOk, WellNamed, Closed, Homely;
  }

  /** The first n dropped tables can be made again. */
  ghost predicate AllRemake(ch: Change, order: seq<DropOrder.Table>, n: nat)
    requires n <= |order|
  {
    forall k | 0 <= k < n :: Unindexed(ch, order, k) && Finds(ch, order, k)
  }

  lemma RemakeMoreIs(ch: Change, order: seq<DropOrder.Table>, n: nat)
    requires 0 < n <= |order|
    ensures AllRemake(ch, order, n) <==> AllRemake(ch, order, n - 1) && Unindexed(ch, order, n - 1) && Finds(ch, order, n - 1)
  {
    hide Unindexed, Finds;
  }

  lemma RemakeNone(ch: Change, order: seq<DropOrder.Table>, db: PgDb)
    ensures RunDb(db, Reverse(RemakeSteps(ch, order, 0))) == Some(db) && AllRemake(ch, order, 0)
  {
    NoSteps(db);
    assert Reverse(RemakeSteps(ch, order, 0)) == [];
  }

  lemma {:induction false} RemakesRun(ch: Change, order: seq<DropOrder.Table>, n: nat, before: set<(string, string)>, db: PgDb) returns (r: Option<PgDb>)
    requires Sound(ch) && OrderOf(ch, order) && DropOrder.Safe(order) && n <= |order| && Remade(ch, order, n, before, db)
    ensures RunDb(db, Reverse(RemakeSteps(ch, order, n))) == r && (r.Some? <==> AllRemake(ch, order, n))
    ensures r.Some? ==> Remade(ch, order, 0, before, r.value)
    decreases n
  {
    hide *;
    if n == 0 {
      RemakeNone(ch, order, db);
      r := Some(db);
    } else {
      r := RemakeOne(ch, order, n - 1, before, db);
      var whole, rest := Reverse(Whole(OldOf(ch, order[n - 1].name).value)), Reverse(RemakeSteps(ch, order, n - 1));
      RemakeLast(ch, order, n, []);
      NothingMore(Reverse(RemakeSteps(ch, order, n)));
      NothingMore(rest);
      DbJoined(db, whole, rest);
      RemakeMoreIs(ch, order, n);
      if r.Some? { r := RemakesRun(ch, order, n - 1, before, r.value); }
    }
  }

  lemma StartsRemade(ch: Change, order: seq<DropOrder.Table>, db: PgDb)
    requires Done(ch, 0, db)
    ensures Remade(ch, order, |order|, db.refs, db)
  {
    hide PgOf;
    forall c ensures Get(db.tables, c) == RemadeTable(ch, order, |order|, c) {
      assert Get(db.tables, c) == DoneTable(ch, 0, c);
      DropsFrom(order, |order|, c);
    }
  }

  // ---- New tables dropped -------------------------------------------------------------------

  /** With every dropped table back, the tables are those the up list had made before it dropped any. */
  lemma RemadeIsMade(ch: Change, order: seq<DropOrder.Table>, before: set<(string, string)>, db: PgDb)
    requires WellNamed(ch) && OrderOf(ch, order) && Remade(ch, order, 0, before, db)
    ensures Made(ch, |ch.news|, db)
  {
    assert order[0..] == order;
    hide PgOf, OldOf, WellNamed, OrderOf, Among;
    forall c ensures Get(db.tables, c) == MadeTable(ch, |ch.news|, c) {
      assert Get(db.tables, c) == RemadeTable(ch, order, 0, c);
      DropsTitle(ch, order, c);
      AmongNamed(ch.news, |ch.news|, c);
    }
  }

  /** The references of the old schema and of the first n new tables. */
  ghost predicate OldAndNewRefs(ch: Change, n: nat, refs: set<(string, string)>)
    requires n <= |ch.news|
  {
    forall m, c :: (m, c) in refs <==> RefersOld(ch, m, c) || NewRef(ch, n, (m, c))
  }

  lemma RemadeRefIsOld(ch: Change, order: seq<DropOrder.Table>, m: string, c: string)
    requires WellNamed(ch) && OrderOf(ch, order) && forall k | 0 <= k < |order| :: Unrenamed(ch, order, k)
    ensures RemadeRef(order, 0, (m, c)) <==> RefersOld(ch, m, c) && m !in Titles(ch.news)
  {
    hide WellNamed, OrderOf, RefersOld, Unrenamed;
    if RemadeRef(order, 0, (m, c)) {
      var k, j :| 0 <= k < |order| && 0 <= j < |order[k].refs| && order[k].refs[j] != "" && (m, c) == (order[k].name, order[k].refs[j]);
      RemadeIsOld(ch, order, k, j);
    }
    if RefersOld(ch, m, c) && m !in Titles(ch.news) { OldIsRemade(ch, order, m, c); }
  }

  lemma RemadeIsOld(ch: Change, order: seq<DropOrder.Table>, k: nat, j: nat)
    requires WellNamed(ch) && OrderOf(ch, order) && k < |order| && Unrenamed(ch, order, k) && j < |order[k].refs| && order[k].refs[j] != ""
    ensures RefersOld(ch, order[k].name, order[k].refs[j]) && order[k].name !in Titles(ch.news)
  {
    hide WellNamed, OrderOf, Claimed;
    var b := GoneIsOld(ch, order, k);
    OwnUnclaimed(ch, order, k);
    LookupFound(ch.renames, order[k].refs[j]);
    LookupFound(ch.renames, order[k].name);
    assert RefersAt(ch, b, j, order[k].name, order[k].refs[j]);
  }

  lemma OldIsRemade(ch: Change, order: seq<DropOrder.Table>, m: string, c: string)
    requires WellNamed(ch) && OrderOf(ch, order) && (forall k | 0 <= k < |order| :: Unrenamed(ch, order, k))
    requires RefersOld(ch, m, c) && m !in Titles(ch.news)
    ensures RemadeRef(order, 0, (m, c))
  {
    hide WellNamed, Claimed;
    var i, j :| 0 <= i < |ch.olds| && 0 <= j < |ch.olds[i].refs| && RefersAt(ch, i, j, m, c);
    GoneHas(ch, Retitled(ch)[i]);
    var k :| 0 <= k < |order| && order[k] == Retitled(ch)[i];
    assert Unrenamed(ch, order, k) && order[k].refs[j] != "";
    LookupFound(ch.renames, order[k].refs[j]);
    assert (m, c) == (order[k].name, order[k].refs[j]);
  }

  lemma RefsReturn(ch: Change, order: seq<DropOrder.Table>, before: set<(string, string)>, db: PgDb)
    requires WellNamed(ch) && OrderOf(ch, order) && forall k | 0 <= k < |order| :: Unrenamed(ch, order, k)
    requires UpRefs(ch, before) && Remade(ch, order, 0, before, db)
    ensures OldAndNewRefs(ch, |ch.news|, db.refs)
  {
    hide WellNamed, OrderOf, RefersOld, NewRef, RemadeRef, Unrenamed;
    forall m, c ensures (m, c) in db.refs <==> RefersOld(ch, m, c) || NewRef(ch, |ch.news|, (m, c)) {
      RemadeRefIsOld(ch, order, m, c);
    }
  }

  /** Nothing left references the last new table: what could was made after it. */
  lemma LastUnreferenced(ch: Change, n: nat, refs: set<(string, string)>)
    requires Sound(ch) && AllMakeable(ch, |ch.news|) && 0 < n <= |ch.news| && IsNew(ch, n - 1) && OldAndNewRefs(ch, n, refs)
    ensures !Referenced(refs, ch.news[n - 1].shape.name)
  {
    var name := ch.news[n - 1].shape.name;
    SoundParts(ch);
    NewsDistinct(ch);
    hide Sound, WellNamed, Closed, RefersOld, OldOf, NewRef, Makeable;
    forall p | p in refs ensures p.1 != name || p.0 == name {
      assert p == (p.0, p.1);
      if RefersOld(ch, p.0, p.1) { RefersToOld(ch, p.0, p.1); }
      if NewRef(ch, n, p) { MadeBefore(ch, n, p); }
    }
  }

  /** Only the last new table itself references it. */
  lemma MadeBefore(ch: Change, n: nat, p: (string, string))
    requires DistinctTitles(ch.news) && AllMakeable(ch, |ch.news|) && 0 < n <= |ch.news| && IsNew(ch, n - 1) && NewRef(ch, n, p)
    ensures p.1 != ch.news[n - 1].shape.name || p.0 == ch.news[n - 1].shape.name
  {
    hide IsNew, Makeable;
    var i :| 0 <= i < n && IsNew(ch, i) && p in OwnRefs(ch.news[i]);
    assert Makeable(ch, i);
    if i < n - 1 { EarlierReference(ch, i, n - 1); }
  }

  lemma RefersToOld(ch: Change, m: string, c: string)
    requires WellNamed(ch) && Closed(ch.olds) && RefersOld(ch, m, c)
    ensures OldOf(ch, c).Some?
  {
    var i, j :| 0 <= i < |ch.olds| && 0 <= j < |ch.olds[i].refs| && RefersAt(ch, i, j, m, c);
    assert ch.olds[i].refs[j] in Titles(ch.olds);
    var k :| 0 <= k < |ch.olds| && ch.olds[k].shape.name == ch.olds[i].refs[j];
    TableRenamesAccepted(ch);
    OldOfIs(ch, k);
  }

  /** A new table references no table that is made after it. */
  lemma EarlierReference(ch: Change, i: nat, k: nat)
    requires DistinctTitles(ch.news) && i < k < |ch.news| && IsNew(ch, k) && Makeable(ch, i)
    ensures forall p | p in OwnRefs(ch.news[i]) :: p.1 != ch.news[k].shape.name
  {
    hide OldOf, IndexesRead;
    forall p | p in OwnRefs(ch.news[i]) ensures p.1 != ch.news[k].shape.name {
      var j :| 0 <= j < |ch.news[i].refs| && ch.news[i].refs[j] != "" && p == (ch.news[i].shape.name, ch.news[i].refs[j]);
    }
  }

  lemma UnmakeOne(ch: Change, n: nat, db: PgDb) returns (r: PgDb)
    requires Sound(ch) && AllMakeable(ch, |ch.news|) && 0 < n <= |ch.news| && IsNew(ch, n - 1)
    requires Made(ch, n, db) && OldAndNewRefs(ch, n, db.refs)
    ensures RunDb(db, [Drop(ch.news[n - 1].shape.name)]) == Some(r) && Made(ch, n - 1, r) && OldAndNewRefs(ch, n - 1, r.refs)
  {
    hide *;
    var name := ch.news[n - 1].shape.name;
    SoundParts(ch);
    NewsDistinct(ch);
    LastUnreferenced(ch, n, db.refs);
    OneDrop(db, name);
    r := PgDb(db.tables - {name}, set p | p in db.refs && p.0 != name);
    UnmadeTables(ch, n, db, r);
    UnmadeRefs(ch, n, db.refs, r.refs);
  }

  lemma OneDrop(db: PgDb, name: string)
    requires !Referenced(db.refs, name)
    ensures RunDb(db, [Drop(name)]) == Some(PgDb(db.tables - {name}, set p | p in db.refs && p.0 != name))
  {
    OneStep(db, Drop(name));
    hide Referenced;
  }

  lemma UnmadeTables(ch: Change, n: nat, db: PgDb, next: PgDb)
    requires DistinctTitles(ch.news) && 0 < n <= |ch.news| && IsNew(ch, n - 1) && Made(ch, n, db)
    requires next.tables == db.tables - {ch.news[n - 1].shape.name}
    ensures Made(ch, n - 1, next)
  {
    hide PgOf, OldOf, Among;
    OwnAmong(ch.news, n - 1, n - 1);
    forall c ensures Get(next.tables, c) == MadeTable(ch, n - 1, c) {
      MadeNext(ch, n, c);
      assert Get(db.tables, c) == MadeTable(ch, n, c);
    }
  }

  lemma UnmadeRefs(ch: Change, n: nat, refs: set<(string, string)>, next: set<(string, string)>)
    requires DistinctTitles(ch.news) && 0 < n <= |ch.news| && IsNew(ch, n - 1) && OldAndNewRefs(ch, n, refs)
    requires next == set p | p in refs && p.0 != ch.news[n - 1].shape.name
    ensures OldAndNewRefs(ch, n - 1, next)
  {
    var name := ch.news[n - 1].shape.name;
    hide OldOf, RefersOld;
    forall m, c ensures (m, c) in next <==> RefersOld(ch, m, c) || NewRef(ch, n - 1, (m, c)) {
      assert (m, c) in refs <==> RefersOld(ch, m, c) || NewRef(ch, n, (m, c));
      if RefersOld(ch, m, c) { ReferrerIsOld(ch, m, c); }
    }
  }

  lemma UnmakeNone(ch: Change, db: PgDb)
    ensures RunDb(db, Reverse(UnmakeSteps(ch, 0))) == Some(db)
  {
    NoSteps(db);
    assert Reverse(UnmakeSteps(ch, 0)) == [];
  }

  lemma UnmakeLast(ch: Change, n: nat)
    requires 0 < n <= |ch.news|
    ensures Reverse(UnmakeSteps(ch, n)) ==
            (if IsNew(ch, n - 1) then [Drop(ch.news[n - 1].shape.name)] else []) + Reverse(UnmakeSteps(ch, n - 1))
  {
    hide Reverse, OldOf;
    var last := if IsNew(ch, n - 1) then [Drop(ch.news[n - 1].shape.name)] else [];
    ReverseJoined(UnmakeSteps(ch, n - 1), last);
    if IsNew(ch, n - 1) { OneReversed(Drop(ch.news[n - 1].shape.name)); } else { NothingReversed<DbStep>(); }
  }

  /** The new tables go, the last one first: no reference between them is in the way. */
  lemma {:induction false} UnmakesRun(ch: Change, n: nat, db: PgDb) returns (r: PgDb)
    requires Sound(ch) && AllMakeable(ch, |ch.news|) && n <= |ch.news| && Made(ch, n, db) && OldAndNewRefs(ch, n, db.refs)
    ensures RunDb(db, Reverse(UnmakeSteps(ch, n))) == Some(r) && Made(ch, 0, r) && OldAndNewRefs(ch, 0, r.refs)
    decreases n
  {
    hide *;
    if n == 0 {
      UnmakeNone(ch, db);
      r := db;
    } else {
      UnmakeLast(ch, n);
      var rest := Reverse(UnmakeSteps(ch, n - 1));
      if IsNew(ch, n - 1) {
        var m := UnmakeOne(ch, n, db);
        DbJoined(db, [Drop(ch.news[n - 1].shape.name)], rest);
        r := UnmakesRun(ch, n - 1, m);
      } else {
        NotMade(ch, n, db);
        assert [] + rest == rest;
        r := UnmakesRun(ch, n - 1, db);
      }
    }
  }

  lemma NotMade(ch: Change, n: nat, db: PgDb)
    requires Sound(ch) && 0 < n <= |ch.news| && !IsNew(ch, n - 1) && Made(ch, n, db) && OldAndNewRefs(ch, n, db.refs)
    ensures Made(ch, n - 1, db) && OldAndNewRefs(ch, n - 1, db.refs)
  {
    SoundParts(ch);
    NewsDistinct(ch);
    hide *;
    NotMadeTables(ch, n, db);
    NotMadeRefs(ch, n, db.refs);
  }

  lemma NotMadeTables(ch: Change, n: nat, db: PgDb)
    requires DistinctTitles(ch.news) && 0 < n <= |ch.news| && !IsNew(ch, n - 1) && Made(ch, n, db)
    ensures Made(ch, n - 1, db)
  {
    hide IsNew, MadeTable;
    forall c ensures Get(db.tables, c) == MadeTable(ch, n - 1, c) {
      MadeNext(ch, n, c);
      assert Get(db.tables, c) == MadeTable(ch, n, c);
    }
  }

  lemma NotMadeRefs(ch: Change, n: nat, refs: set<(string, string)>)
    requires 0 < n <= |ch.news| && !IsNew(ch, n - 1) && OldAndNewRefs(ch, n, refs)
    ensures OldAndNewRefs(ch, n - 1, refs)
  {
    hide IsNew, OwnRefs, RefersOld;
  }

  // ---- A reference to a renamed table -------------------------------------------------------

  /** Every step drops a table other than this one. */
  predicate DropsOthers(ss: seq<DbStep>, name: string) { forall i | 0 <= i < |ss| :: ss[i].Drop? && ss[i].name != name }

  /** A reference from a table that is not dropped keeps its target. */
  lemma {:induction false} ReferenceBlocks(db: PgDb, ss: seq<DbStep>, p: (string, string))
    requires p in db.refs && p.0 != p.1 && DropsOthers(ss, p.0) && Drop(p.1) in ss
    ensures RunDb(db, ss) == None
    decreases |ss|
  {
    if ss[0] == Drop(p.1) {
      assert Referenced(db.refs, p.1);
    } else if ExecuteDb(db, ss[0]).Some? {
      forall i | 0 <= i < |ss[1..]| ensures ss[1..][i] == ss[i + 1] { }
      ReferenceBlocks(ExecuteDb(db, ss[0]).value, ss[1..], p);
    }
  }

  lemma {:induction false} UnmakesAre(ch: Change, n: nat, s: DbStep)
    requires n <= |ch.news|
    ensures s in UnmakeSteps(ch, n) <==> exists i | 0 <= i < n && IsNew(ch, i) :: s == Drop(ch.news[i].shape.name)
  {
    hide OldOf;
    if n > 0 { UnmakesAre(ch, n - 1, s); }
  }

  lemma ReverseHas<T>(s: seq<T>, x: T)
    ensures x in Reverse(s) <==> x in s
  {
    if i :| 0 <= i < |s| && s[i] == x { assert Reverse(s)[|s| - 1 - i] == x; }
    if i :| 0 <= i < |s| && Reverse(s)[i] == x { assert s[|s| - 1 - i] == x; }
  }

  /** A name that a renamed table gave up stands for no old table. */
  lemma GivenUpIsNew(ch: Change, r: string)
    requires WellNamed(ch) && Claimed(ch.renames, r)
    ensures OldOf(ch, r).None?
  {
    TableRenamesAccepted(ch);
    if OldOf(ch, r).Some? {
      var i :| 0 <= i < |ch.olds| && Lookup(ch.renames, ch.olds[i].shape.name) == r;
      LookupFound(ch.renames, ch.olds[i].shape.name);
      LookupFound(ch.renames, r);
    }
  }

  /** Where the name is a new table's by now, the dropped table is made again over that one, which then cannot go. */
  lemma RenamedBlocks(ch: Change, order: seq<DropOrder.Table>, before: set<(string, string)>, db: PgDb, k: nat)
    requires WellNamed(ch) && OrderOf(ch, order) && AllRemake(ch, order, |order|) && Remade(ch, order, 0, before, db)
    requires k < |order| && !Unrenamed(ch, order, k)
    ensures RunDb(db, Reverse(UnmakeSteps(ch, |ch.news|))) == None
  {
    hide WellNamed, OrderOf, Unindexed, Claimed, OldOf;
    assert Finds(ch, order, k);
    var j :| 0 <= j < |order[k].refs| && order[k].refs[j] != "" && Claimed(ch.renames, order[k].refs[j]);
    var name, r := order[k].name, order[k].refs[j];
    assert RemadeRef(order, 0, (name, r));
    GivenUpIsNew(ch, r);
    var i :| 0 <= i < |ch.news| && ch.news[i].shape.name == r;
    var b := GoneIsOld(ch, order, k);
    OwnUnclaimed(ch, order, k);
    var ss := UnmakeSteps(ch, |ch.news|);
    forall x | 0 <= x < |ss| ensures Reverse(ss)[x].Drop? && Reverse(ss)[x].name != name {
      ReverseHas(ss, Reverse(ss)[x]);
      UnmakesAre(ch, |ch.news|, Reverse(ss)[x]);
    }
    UnmakesAre(ch, |ch.news|, Drop(r));
    ReverseHas(ss, Drop(r));
    ReferenceBlocks(db, Reverse(ss), (name, r));
  }

  // ---- Old names ----------------------------------------------------------------------------

  predicate Within(refs: set<(string, string)>, names: set<string>) { forall p | p in refs :: p.0 in names && p.1 in names }

  /** Renames run backwards give every table and reference its old name. */
  lemma {:induction false} RenamesUndone(db: PgDb, rs: seq<Rename>, r: PgDb)
    requires Accepted(db.tables.Keys, rs) && Within(db.refs, db.tables.Keys) && RunDb(db, RenameTables(rs)) == Some(r)
    ensures RunDb(r, Reverse(RenameBack(rs))) == Some(db)
    decreases |rs|
  {
    hide Reverse;
    if rs == [] {
      NoSteps(db);
      NothingReversed<DbStep>();
      assert RenameTables(rs) == [] && RenameBack(rs) == [];
    } else {
      var a, b, rest := rs[0].was, rs[0].becomes, rs[1..];
      var next := PgDb(RenamedRow(db.tables, a, b), MovedRefs(db.refs, a, b));
      AcceptedRest(db.tables.Keys, rs);
      assert next.tables.Keys == db.tables.Keys - {a} + {b};
      assert RenameTables(rs)[0] == RenameTo(a, b) && RenameTables(rs)[1..] == RenameTables(rest);
      RenamesUndone(next, rest, r);
      assert RenameBack(rs) == [RenameTo(b, a)] + RenameBack(rest);
      ReverseJoined([RenameTo(b, a)], RenameBack(rest));
      OneReversed(RenameTo(b, a));
      DbJoined(r, Reverse(RenameBack(rest)), [RenameTo(b, a)]);
      RenameUndone(db, a, b);
    }
  }

  lemma RenameUndone(db: PgDb, a: string, b: string)
    requires a in db.tables && b !in db.tables && Within(db.refs, db.tables.Keys)
    ensures RunDb(PgDb(RenamedRow(db.tables, a, b), MovedRefs(db.refs, a, b)), [RenameTo(b, a)]) == Some(db)
  {
    OneStep(PgDb(RenamedRow(db.tables, a, b), MovedRefs(db.refs, a, b)), RenameTo(b, a));
    assert RenamedRow(RenamedRow(db.tables, a, b), b, a) == db.tables;
    assert MovedRefs(MovedRefs(db.refs, a, b), b, a) == db.refs;
  }

  lemma RefsWithin(ch: Change)
    requires Closed(ch.olds)
    ensures Within(DbOf(ch.olds).refs, DbOf(ch.olds).tables.Keys)
  {
    hide PgOf;
    forall p | p in RefsOf(ch.olds) ensures p.0 in Titles(ch.olds) && p.1 in Titles(ch.olds) {
      var i :| 0 <= i < |ch.olds| && p in OwnRefs(ch.olds[i]);
    }
  }

  /** The old tables under their new names, renamed back, are the old database. */
  lemma RenamesRunBack(ch: Change, db: PgDb)
    requires WellNamed(ch) && Closed(ch.olds) && Made(ch, 0, db) && OldAndNewRefs(ch, 0, db.refs)
    ensures RunDb(db, Reverse(RenameBack(InOldOrder(ch, |ch.olds|)))) == Some(DbOf(ch.olds))
  {
    hide *;
    var r := Retitling(ch);
    SameDb(ch, db, r);
    TableRenamesAccepted(ch);
    NewsDistinct(ch);
    InOldOrderAccepted(ch, |ch.olds|);
    OldNames(ch);
    RefsWithin(ch);
    RenamesUndone(DbOf(ch.olds), InOldOrder(ch, |ch.olds|), r);
  }

  lemma OldNames(ch: Change)
    ensures DbOf(ch.olds).tables.Keys == Titles(ch.olds)
  {
    hide PgOf;
  }

  lemma SameDb(ch: Change, db: PgDb, r: PgDb)
    requires Made(ch, 0, db) && OldAndNewRefs(ch, 0, db.refs)
    requires (forall c :: Get(r.tables, c) == OldTable(ch, c)) && forall m, n :: (m, n) in r.refs <==> RefersOld(ch, m, n)
    ensures db == r
  {
    hide OldTable, RefersOld;
    forall c ensures Get(db.tables, c) == Get(r.tables, c) { assert Get(db.tables, c) == MadeTable(ch, 0, c); }
    SameByGet(db.tables, r.tables);
    forall p ensures p in db.refs <==> p in r.refs { assert p == (p.0, p.1); }
  }

  // ---- Down after up ------------------------------------------------------------------------

  /** From the table diffs taken back: the dropped tables, the new ones, the old names. */
  lemma DownOutcome(ch: Change, order: seq<DropOrder.Table>, db: PgDb) returns (r: Option<PgDb>)
    requires Sound(ch) && OrderOf(ch, order) && DropOrder.Safe(order) && AllMakeable(ch, |ch.news|) && Done(ch, 0, db) && UpRefs(ch, db.refs)
    ensures RunDb(db, Reverse(RemakeSteps(ch, order, |order|)) +
                      (Reverse(UnmakeSteps(ch, |ch.news|)) + Reverse(RenameBack(InOldOrder(ch, |ch.olds|))))) == r
    ensures r.Some? <==> forall k | 0 <= k < |order| :: Unindexed(ch, order, k) && Unrenamed(ch, order, k)
    ensures r.Some? ==> r.value == DbOf(ch.olds)
  {
    hide *;
    SoundParts(ch);
    StartsRemade(ch, order, db);
    var remakes, unmakes, names := Reverse(RemakeSteps(ch, order, |order|)), Reverse(UnmakeSteps(ch, |ch.news|)),
        Reverse(RenameBack(InOldOrder(ch, |ch.olds|)));
    DbJoined(db, remakes, unmakes + names);
    RemakesAll(ch, order);
    r := RemakesRun(ch, order, |order|, db.refs, db);
    if r.Some? {
      var m := r.value;
      DbJoined(m, unmakes, names);
      if k :| 0 <= k < |order| && !Unrenamed(ch, order, k) {
        RenamedBlocks(ch, order, db.refs, m, k);
        r := None;
      } else {
        RemadeIsMade(ch, order, db.refs, m);
        RefsReturn(ch, order, db.refs, m);
        var u := UnmakesRun(ch, |ch.news|, m);
        RenamesRunBack(ch, u);
        r := Some(DbOf(ch.olds));
      }
    }
  }

  lemma RemakesAll(ch: Change, order: seq<DropOrder.Table>)
    ensures AllRemake(ch, order, |order|) ==> forall k | 0 <= k < |order| :: Unindexed(ch, order, k)
    ensures (forall k | 0 <= k < |order| :: Unindexed(ch, order, k) && Unrenamed(ch, order, k)) ==> AllRemake(ch, order, |order|)
  {
    hide Unindexed, Claimed;
    if forall k | 0 <= k < |order| :: Unindexed(ch, order, k) && Unrenamed(ch, order, k) {
      forall k | 0 <= k < |order| ensures Unindexed(ch, order, k) && Finds(ch, order, k) { assert Unrenamed(ch, order, k); }
    }
  }

  /**
   * Down after a successful up succeeds exactly when every table that stays can be altered back, no dropped table had an index
   * and none referenced a renamed table; it then gives the old database back, tables and references. The references between
   * new tables are never in the way.
   */
  lemma SchemaRoundTrip(ch: Change, order: seq<DropOrder.Table>) returns (up: PgDb, down: Option<PgDb>)
    requires Sound(ch) && multiset(order) == multiset(Gone(ch)) && Feasible(ch, order)
    ensures RunDb(DbOf(ch.olds), UpDb(ch, order)) == Some(up) && up.tables == TableMap(ch.news)
    ensures RunDb(up, DownDb(ch, order)) == down
    ensures down.Some? <==>
              AllRevert(ch, |ch.news|) && forall k | 0 <= k < |order| :: Unindexed(ch, order, k) && Unrenamed(ch, order, k)
    ensures down.Some? ==> down.value == DbOf(ch.olds)
  {
    assert DropOrder.Safe(order) && AllMakeable(ch, |ch.news|);
    hide *;
    SoundParts(ch);
    SchemaReplays(ch, order);
    OrderIsOrder(ch, order);
    up := RunDb(DbOf(ch.olds), UpDb(ch, order)).value;
    StartsDone(ch, up);
    DownDbIs(ch, order);
    DbJoined(up, Reverse(UndiffSteps(ch, |ch.news|)), Reverse(RemakeSteps(ch, order, |order|)) +
             (Reverse(UnmakeSteps(ch, |ch.news|)) + Reverse(RenameBack(InOldOrder(ch, |ch.olds|)))));
    down := UndiffsRun(ch, up, |ch.news|);
    if down.Some? { down := DownOutcome(ch, order, down.value); }
  }

  /** The k-th table of the new schema is new or stands in the old schema as it is. */
  ghost predicate NewOrSame(ch: Change, k: nat)
    requires k < |ch.news|
  {
    IsNew(ch, k) || OldOf(ch, ch.news[k].shape.name).value.shape == ch.news[k].shape
  }

  /** A change that only creates tables, whatever they reference, is always taken back. */
  lemma CreatedComeAndGo(ch: Change) returns (up: PgDb)
    requires Sound(ch) && AllMakeable(ch, |ch.news|) && Gone(ch) == [] && forall k | 0 <= k < |ch.news| :: NewOrSame(ch, k)
    ensures RunDb(DbOf(ch.olds), UpDb(ch, [])) == Some(up) && up.tables == TableMap(ch.news)
    ensures RunDb(up, DownDb(ch, [])) == Some(DbOf(ch.olds))
  {
    forall k | 0 <= k < |ch.news| ensures TableAlters(ch, k) && TableReverts(ch, k) { SameComesBack(ch, k); }
    OnlyCreates(ch);
    hide *;
    var trip, down := SchemaRoundTrip(ch, []);
    up := trip;
  }

  lemma OnlyCreates(ch: Change)
    requires Sound(ch) && AllMakeable(ch, |ch.news|) && Gone(ch) == []
    requires forall k | 0 <= k < |ch.news| :: TableAlters(ch, k) && TableReverts(ch, k)
    ensures Feasible(ch, []) && AllRevert(ch, |ch.news|)
  {
    SoundParts(ch);
    hide Sound, AllMakeable, TableAlters, TableReverts, Closed;
    NothingGoes(ch);
  }

  lemma NothingGoes(ch: Change)
    requires WellNamed(ch) && Closed(ch.olds) && Gone(ch) == []
    ensures !KeptReference(ch)
  {
    forall i, j | 0 <= i < |ch.olds| && 0 <= j < |ch.olds[i].refs| && ch.olds[i].refs[j] != ""
      ensures Lookup(ch.renames, ch.olds[i].refs[j]) in Titles(ch.news)
    {
      assert ch.olds[i].refs[j] in Titles(ch.olds);
      var k :| 0 <= k < |ch.olds| && ch.olds[k].shape.name == ch.olds[i].refs[j];
      GoneHas(ch, Retitled(ch)[k]);
    }
  }

  lemma SameComesBack(ch: Change, k: nat)
    requires Sound(ch) && k < |ch.news| && NewOrSame(ch, k)
    ensures TableAlters(ch, k) && TableReverts(ch, k)
  {
    if !IsNew(ch, k) {
      HasOld(ch, k);
      SoundParts(ch);
      assert !TableConflict(ch, k);
      ColumnsAccepted(ch, k);
      var t := ch.news[k].shape;
      var renames := ColumnRenames(OldOf(ch, t.name).value, ch.news[k]);
      ShapesOk(ch, k);
      hide OldOf, ColumnRenames, Sound, WellNamed, Closed;
      NothingAlters(t, renames);
    }
  }

  lemma ShapesOk(ch: Change, k: nat)
    requires Sound(ch) && k < |ch.news|
    ensures ShapeOk(ch.news[k].shape)
  {
    hide ShapeOk, WellNamed, Closed, Homely;
  }

  /** A table that stays as it is needs no statement, and none fails. */
  lemma NothingAlters(t: Table, renames: seq<Rename>)
    requires ShapeOk(t) && Accepted(ColumnNames(t.columns), renames) && NoReuse(t, renames)
    ensures Alterable(t, t, renames) && Revertible(t, t, renames)
  {
    NoMarkers(t, renames);
    forall i | 0 <= i < |t.indexes| ensures Get(IndexMap(t.indexes), t.indexes[i].name) == Some(t.indexes[i]) { NewIndexHere(t, i); }
    hide AllLegible, Legible, IndexMap, Declarable;
    forall i | 0 <= i < |t.columns| ensures AltersAt(t, t, [], i) && RevertsAt(t, t, [], i) { OwnShape(t, i); }
  }

  lemma NoMarkers(t: Table, renames: seq<Rename>)
    requires Accepted(ColumnNames(t.columns), renames) && NoReuse(t, renames)
    ensures renames == []
  {
    HeadIn(renames);
  }

  lemma {:induction false} OwnShape(t: Table, i: nat)
    requires DistinctColumns(t.columns) && i < |t.columns|
    ensures OldShape(t.columns, [], t.columns[i].name) == Some(ShapeOf(t.columns[i]))
  {
    OldShapeFrom(t.columns, [], t.columns[i].name);
    assert Lookup([], t.columns[i].name) == t.columns[i].name;
    var j :| 0 <= j < |t.columns| && Lookup([], t.columns[j].name) == t.columns[i].name
             && OldShape(t.columns, [], t.columns[i].name).value == ShapeOf(t.columns[j]);
    assert Lookup([], t.columns[j].name) == t.columns[j].name;
  }
}
