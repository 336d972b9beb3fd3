/** What a rebuild does to the rows that reference its table. */
module RebuildLosses {
  // The drop inside a rebuild deletes the old rows first, and the foreign keys act on that before the copy has the name.

  import opened Options
  import opened Schema
  import opened Sqlite
  import opened Rebuild

  /** A row that references the rebuilt table pays for it: it goes, or it changes. With CASCADE it goes. */
  lemma ReferringRowPays(sql: Reading, db: Db, target: Table, source: Table, x: string, i: nat, h: Held, j: nat)
    requires Rebuildable(db, target, source) && Run(sql, db, RebuildSteps(target, source)).Some?
    requires x != target.name && Refers(Doubled(db, target, RebuiltRows(target, source, db[source.name].rows)), x, i, h, target.name, j)
    ensures var two := Doubled(db, target, RebuiltRows(target, source, db[source.name].rows));
            && (Deleted(two, target.name, x, i) || Reset(two, target.name, x, i) != two[x].rows[i])
            && (h.def.references.onDelete.Cascade? ==> Deleted(two, target.name, x, i))
            && (h.def.references.onDelete.SetNull? ==> Deleted(two, target.name, x, i) || ValueAt(Reset(two, target.name, x, i), h.name) == Null)
  {
    var two := Doubled(db, target, RebuiltRows(target, source, db[source.name].rows));
    assert |Scratch(target)| > |target.name|;
    RebuildRuns(sql, db, target, source);
    hide *;
    DropGives(sql, two, target.name);
    ReferringChanges(two, target.name, x, i, h, j);
    ActionTaken(two, target.name, x, i, h, j);
  }

  /** A NO ACTION reference from a row that nothing else deletes or resets makes the commit fail. */
  lemma NoActionStops(sql: Reading, db: Db, target: Table, source: Table, x: string, i: nat, h: Held, j: nat)
    requires Rebuildable(db, target, source) && x != target.name
    requires var two := Doubled(db, target, RebuiltRows(target, source, db[source.name].rows));
             && Refers(two, x, i, h, target.name, j)
             && forall k | k in two[x].columns && k.def.references.Reference? :: k.def.references.onDelete.NoAction?
    ensures Run(sql, db, RebuildSteps(target, source)) == None
  {
    var two := Doubled(db, target, RebuiltRows(target, source, db[source.name].rows));
    assert |Scratch(target)| > |target.name|;
    RebuildRuns(sql, db, target, source);
    hide RebuildSteps, RebuiltRows, Rebuildable, Layout, Doubled, Run, Without, Dropped, CopyFits, AllIndexable, Creatable;
    NothingActs(two, target.name, x, i);
    ReferringChanges(two, target.name, x, i, h, j);
    if Execute(sql, two, DropTable(target.name)).Some? { DropGives(sql, two, target.name); }
  }

  lemma NothingActs(db: Db, gone: string, x: string, i: nat)
    requires At(db, x, i) && x != gone && forall k | k in db[x].columns && k.def.references.Reference? :: k.def.references.onDelete.NoAction?
    ensures !Deleted(db, gone, x, i) && Reset(db, gone, x, i) == db[x].rows[i]
  {
    forall n: nat ensures !Doomed(db, gone, n, x, i) { }
    forall c ensures !ResetBy(db, gone, x, i, c, SetNull) && !ResetBy(db, gone, x, i, c, SetDefault) { }
  }

  // ---- A family -----------------------------------------------------------------------------

  const INTEGER := SqlType("INTEGER", false, {}, {}, {}, {})
  const KEY := SqlType("INTEGER PRIMARY KEY", true, {}, {}, {}, {})

  function Plain(references: Reference): Def { Def(INTEGER, false, Null, [], references) }

  const ID := Column("id", true, Def(KEY, true, Null, [], NoReference), "")

  function Up(action: Action): Column { Column("up", false, Plain(Reference("p", "id", action)), "") }

  const LOOSE := Column("a", false, Plain(NoReference), "")
  const STRICT := Column("a", false, Plain(NoReference).(notNull := true), "")

  /** The rebuild that makes a column NOT NULL. */
  const OLD_PARENT := Table("p", [ID, LOOSE], [], [])
  const NEW_PARENT := Table("p", [ID, STRICT], [], [])

  const PARENT_ROW: Row := map["id" := Known(1), "a" := Known(0)]
  const CHILD_ROW: Row := map["id" := Known(1), "up" := Known(1)]

  function Child(action: Action): Live { Live([HeldOf(ID), HeldOf(Up(action))], [], map[], [CHILD_ROW]) }

  function Family(action: Action): Db { map["p" := LiveOf(OLD_PARENT, [PARENT_ROW]), "c" := Child(action)] }

  lemma Layouts()
    ensures Layout(OLD_PARENT.columns) == [HeldOf(ID), HeldOf(LOOSE)] && Layout(NEW_PARENT.columns) == [HeldOf(ID), HeldOf(STRICT)]
    ensures SharedNames(NEW_PARENT.columns, OLD_PARENT.columns) == ["id", "a"]
    ensures forall rows :: RebuiltRows(NEW_PARENT, OLD_PARENT, rows) == FilledRows([HeldOf(ID), HeldOf(STRICT)], rows, ["id", "a"])
  {
    TwoColumns(ID, LOOSE);
    TwoColumns(ID, STRICT);
    assert NEW_PARENT.columns[1..] == [STRICT] && NEW_PARENT.columns[1..][1..] == [];
    assert SharedNames([], OLD_PARENT.columns) == [];
    assert OLD_PARENT.columns[0].name == "id" && OLD_PARENT.columns[1].name == "a";
    assert SharedNames([STRICT], OLD_PARENT.columns) == ["a"];
  }

  lemma TwoColumns(a: Column, b: Column)
    requires a.pk && !b.pk
    ensures Layout([a, b]) == [HeldOf(a), HeldOf(b)]
  {
    assert [a, b][1..] == [b] && [b][1..] == [];
    assert Only([], true) == [] && Only([], false) == [];
    assert Only([b], true) == [] && Only([b], false) == [HeldOf(b)];
    assert Only([a, b], true) == [HeldOf(a)] && Only([a, b], false) == [HeldOf(b)];
  }

  lemma CopiedRow()
    ensures RebuiltRows(NEW_PARENT, OLD_PARENT, [PARENT_ROW]) == [PARENT_ROW]
  {
    Layouts();
    hide Layout, SharedNames, RebuiltRows;
    var columns := [HeldOf(ID), HeldOf(STRICT)];
    assert columns[0].name == "id" && columns[1].name == "a";
    assert Names(columns) == {"id", "a"};
    assert Filled(columns, PARENT_ROW, ["id", "a"]) == PARENT_ROW;
    assert FilledRows(columns, [PARENT_ROW], ["id", "a"]) == [PARENT_ROW];
  }

  lemma FamilyCopies(sql: Reading, action: Action)
    ensures CopyFits(sql, Family(action), NEW_PARENT, [PARENT_ROW]) && Creatable(NEW_PARENT)
  {
    Layouts();
    hide Layout, SharedNames, RebuiltRows;
    var columns := [HeldOf(ID), HeldOf(STRICT)];
    forall h | h in columns ensures h.def.references == NoReference && h.def.check == [] { }
  }

  lemma FamilyScratch(action: Action)
    ensures ScratchUnknown(Family(action), NEW_PARENT)
  {
    Layouts();
    hide Layout;
    assert |Scratch(NEW_PARENT)| > |"p"|;
    var columns, olds := [HeldOf(ID), HeldOf(STRICT)], [HeldOf(ID), HeldOf(LOOSE)];
    forall h | h in columns || h in olds ensures h.def.references == NoReference { }
    forall h | h in Child(action).columns ensures h.def.references.Reference? ==> h.def.references.table == "p" { }
  }

  lemma FamilyRebuildable(action: Action)
    ensures Rebuildable(Family(action), NEW_PARENT, OLD_PARENT)
  {
    Layouts();
    FamilyScratch(action);
    hide Layout, SharedNames, RebuiltRows, ScratchUnknown;
    var columns, olds := [HeldOf(ID), HeldOf(STRICT)], [HeldOf(ID), HeldOf(LOOSE)];
    assert columns[0].name == olds[0].name == "id" && columns[1].name == olds[1].name == "a";
  }

  lemma FamilyFree(action: Action)
    ensures ScratchFree(Family(action), NEW_PARENT) && Scratch(NEW_PARENT) != "p" && Scratch(NEW_PARENT) != "c"
  {
    hide Layout;
    assert |Scratch(NEW_PARENT)| > |"p"| && |Scratch(NEW_PARENT)| > |"c"|;
    assert IndexMap([]) == map[];
  }

  lemma FamilyRuns(sql: Reading, action: Action)
    ensures Rebuildable(Family(action), NEW_PARENT, OLD_PARENT)
    ensures RebuiltRows(NEW_PARENT, OLD_PARENT, [PARENT_ROW]) == [PARENT_ROW]
    ensures var two := Doubled(Family(action), NEW_PARENT, [PARENT_ROW]);
            && Scratch(NEW_PARENT) != "p" && Scratch(NEW_PARENT) != "c" && Scratch(NEW_PARENT) in Without(two, "p")
            && Run(sql, Family(action), RebuildSteps(NEW_PARENT, OLD_PARENT)) ==
               if Execute(sql, two, DropTable("p")).Some? then Some(Settled(Family(action), NEW_PARENT, [PARENT_ROW])) else None
  {
    var db, two := Family(action), Doubled(Family(action), NEW_PARENT, [PARENT_ROW]);
    FamilyFree(action);
    CopiedRow();
    FamilyCopies(sql, action);
    FamilyRebuildable(action);
    hide Scratch, ScratchFree, Creatable, Layout, SharedNames, RebuiltRows, Without, CopyFits, Execute, Run, RebuildSteps, Rebuildable;
    BothThere(db, NEW_PARENT, [PARENT_ROW]);
    RebuildRuns(sql, db, NEW_PARENT, OLD_PARENT);
    assert db["p"].rows == [PARENT_ROW];
  }

  function CascadedLeft(): Db {
    map["c" := Child(Cascade).(rows := []), Scratch(NEW_PARENT) := Made(NEW_PARENT, [PARENT_ROW])]
  }

  lemma ChildGone()
    ensures var two := Doubled(Family(Cascade), NEW_PARENT, [PARENT_ROW]);
            Without(two, "p") == CascadedLeft() && Deleted(two, "p", "c", 0)
  {
    var two := Doubled(Family(Cascade), NEW_PARENT, [PARENT_ROW]);
    assert |Scratch(NEW_PARENT)| > |"p"| && |Scratch(NEW_PARENT)| > |"c"|;
    ChildRefers(Cascade);
    CopyKept(Cascade);
    ActionTaken(two, "p", "c", 0, HeldOf(Up(Cascade)), 0);
    hide Layout, Deleted, Reset, Refers, IndexMap;
    assert Staying(two, "p", "c", 0) == [] && Staying(two, "p", "c", 1) == [];
  }

  lemma CascadeDrops(sql: Reading)
    ensures Execute(sql, Doubled(Family(Cascade), NEW_PARENT, [PARENT_ROW]), DropTable("p")).Some?
  {
    ChildGone();
    NoChildOrphaned();
    CascadedFits(sql);
    hide Layout, Deleted, Orphans, Without, TableFits, Execute;
    DropSucceeds(sql, Doubled(Family(Cascade), NEW_PARENT, [PARENT_ROW]), "p");
  }

  lemma CascadedFits(sql: Reading)
    ensures forall x | x in CascadedLeft() :: TableFits(sql, CascadedLeft()[x])
  {
    FamilyCopies(sql, Cascade);
    hide Layout;
    assert TableFits(sql, Child(Cascade).(rows := []));
  }

  lemma NoChildOrphaned()
    ensures !Orphans(Doubled(Family(Cascade), NEW_PARENT, [PARENT_ROW]), "p")
  {
    ChildGone();
    CopyKept(Cascade);
    hide Layout, Deleted, Reset, Refers, IndexMap, Without;
  }

  /** A child row that cascades is deleted, though its parent is back under its name before the commit. */
  lemma CascadeTakesChild(sql: Reading)
    ensures Run(sql, Family(Cascade), RebuildSteps(NEW_PARENT, OLD_PARENT)) ==
            Some(map["p" := LiveOf(NEW_PARENT, [PARENT_ROW]), "c" := Child(Cascade).(rows := [])])
  {
    FamilyRuns(sql, Cascade);
    ChildGone();
    CascadeDrops(sql);
    hide Run, RebuildSteps, Rebuildable, RebuiltRows, Layout, Deleted, Without, IndexMap, Execute;
    assert Settled(Family(Cascade), NEW_PARENT, [PARENT_ROW]) == map["p" := LiveOf(NEW_PARENT, [PARENT_ROW]), "c" := Child(Cascade).(rows := [])];
  }

  /** The copied row references nothing, so the drop leaves it. */
  lemma CopyKept(action: Action)
    ensures var two := Doubled(Family(action), NEW_PARENT, [PARENT_ROW]);
            && !Deleted(two, "p", Scratch(NEW_PARENT), 0) && Staying(two, "p", Scratch(NEW_PARENT), 1) == [PARENT_ROW]
            && forall h | h in two[Scratch(NEW_PARENT)].columns :: h.def.references == NoReference
  {
    var two, scratch := Doubled(Family(action), NEW_PARENT, [PARENT_ROW]), Scratch(NEW_PARENT);
    assert |scratch| > |"p"| && |scratch| > |"c"|;
    Layouts();
    hide Layout;
    forall h | h in two[scratch].columns ensures h.def.references == NoReference { }
    NothingActs(two, "p", scratch, 0);
    assert Staying(two, "p", scratch, 0) == [];
  }

  lemma ChildRefers(action: Action)
    ensures Refers(Doubled(Family(action), NEW_PARENT, [PARENT_ROW]), "c", 0, HeldOf(Up(action)), "p", 0)
  {
    Layouts();
    var two := Doubled(Family(action), NEW_PARENT, [PARENT_ROW]);
    var p := two["p"];
    assert p.columns[0].name == "id";
    assert [HeldOf(ID), HeldOf(LOOSE)][1..] == [HeldOf(LOOSE)] && [HeldOf(LOOSE)][1..] == [];
    assert KeysAmong([]) == [] && KeysAmong([HeldOf(LOOSE)]) == [] && KeysAmong(p.columns) == ["id"];
    assert HeldOf(Up(action)) == two["c"].columns[1];
  }

  /** A NO ACTION reference to a row that is copied, and back before the commit, makes the commit fail all the same. */
  lemma NoActionFails(sql: Reading)
    ensures Run(sql, Family(NoAction), RebuildSteps(NEW_PARENT, OLD_PARENT)) == None
  {
    FamilyRuns(sql, NoAction);
    ChildRefers(NoAction);
    hide Run, RebuildSteps, Rebuildable, RebuiltRows, Without;
    NoActionStops(sql, Family(NoAction), NEW_PARENT, OLD_PARENT, "c", 0, HeldOf(Up(NoAction)), 0);
  }

  // ---- A tree -------------------------------------------------------------------------------

  const OLD_TREE := Table("p", [ID, Up(Cascade), LOOSE], [], [])
  const NEW_TREE := Table("p", [ID, Up(Cascade), STRICT], [], [])

  const ROOT: Row := map["id" := Known(1), "up" := Null, "a" := Known(0)]
  const LEAF: Row := map["id" := Known(2), "up" := Known(1), "a" := Known(0)]

  const OLD_COLUMNS := [HeldOf(ID), HeldOf(Up(Cascade)), HeldOf(LOOSE)]
  const NEW_COLUMNS := [HeldOf(ID), HeldOf(Up(Cascade)), HeldOf(STRICT)]

  /** Two rows of one table, the second under the first. */
  const FOREST: Db := map["p" := Live(OLD_COLUMNS, [], map[], [ROOT, LEAF])]

  lemma ThreeColumns(a: Column, b: Column, c: Column)
    requires a.pk && !b.pk && !c.pk
    ensures Layout([a, b, c]) == [HeldOf(a), HeldOf(b), HeldOf(c)]
  {
    assert [a, b, c][1..] == [b, c] && [b, c][1..] == [c] && [c][1..] == [];
    assert Only([], true) == [] && Only([], false) == [];
    assert Only([c], true) == [] && Only([c], false) == [HeldOf(c)];
    assert Only([b, c], true) == [] && Only([b, c], false) == [HeldOf(b), HeldOf(c)];
    assert Only([a, b, c], true) == [HeldOf(a)] && Only([a, b, c], false) == [HeldOf(b), HeldOf(c)];
  }

  lemma TreeLayouts()
    ensures Layout(OLD_TREE.columns) == OLD_COLUMNS && Layout(NEW_TREE.columns) == NEW_COLUMNS
    ensures SharedNames(NEW_TREE.columns, OLD_TREE.columns) == ["id", "up", "a"]
    ensures RebuiltRows(NEW_TREE, OLD_TREE, [ROOT, LEAF]) == FilledRows(NEW_COLUMNS, [ROOT, LEAF], ["id", "up", "a"])
  {
    ThreeColumns(ID, Up(Cascade), LOOSE);
    ThreeColumns(ID, Up(Cascade), STRICT);
    var news, olds := NEW_TREE.columns, OLD_TREE.columns;
    assert news[1..] == [Up(Cascade), STRICT] && news[1..][1..] == [STRICT] && news[1..][1..][1..] == [];
    assert olds[0].name == "id" && olds[1].name == "up" && olds[2].name == "a";
    assert SharedNames([], olds) == [] && SharedNames([STRICT], olds) == ["a"] && SharedNames([Up(Cascade), STRICT], olds) == ["up", "a"];
  }

  lemma TreeCopied()
    ensures RebuiltRows(NEW_TREE, OLD_TREE, [ROOT, LEAF]) == [ROOT, LEAF]
  {
    TreeLayouts();
    hide Layout, SharedNames, RebuiltRows;
    assert NEW_COLUMNS[0].name == "id" && NEW_COLUMNS[1].name == "up" && NEW_COLUMNS[2].name == "a";
    assert Names(NEW_COLUMNS) == {"id", "up", "a"};
    assert Filled(NEW_COLUMNS, ROOT, ["id", "up", "a"]) == ROOT && Filled(NEW_COLUMNS, LEAF, ["id", "up", "a"]) == LEAF;
    assert FilledRows(NEW_COLUMNS, [ROOT, LEAF], ["id", "up", "a"]) == [ROOT, LEAF];
  }

  lemma KeyIsId(columns: seq<Held>, indexes: map<string, Index>, rows: seq<Row>)
    requires columns == OLD_COLUMNS || columns == NEW_COLUMNS
    ensures IsKey(Live(columns, [], indexes, rows), "id") && KeyColumns(Live(columns, [], indexes, rows)) == ["id"]
  {
    assert columns[0].name == "id" && columns[1..] == [columns[1], columns[2]];
    assert columns[1..][1..] == [columns[2]] && columns[1..][1..][1..] == [];
    assert KeysAmong([]) == [] && KeysAmong([columns[2]]) == [] && KeysAmong([columns[1], columns[2]]) == [];
    assert KeysAmong(columns) == ["id"];
  }

  lemma LeafFindsRoot(h: Held)
    requires h in NEW_COLUMNS
    ensures Bindable(FOREST, h) && Found(FOREST, h, ROOT) && Found(FOREST, h, LEAF)
  {
    KeyIsId(OLD_COLUMNS, map[], [ROOT, LEAF]);
    assert FOREST["p"].rows[0] == ROOT;
    if h == NEW_COLUMNS[1] { assert PointsAt(LEAF, h, ROOT); }
  }

  lemma Unchecked(h: Held)
    requires h in NEW_COLUMNS
    ensures h.def.check == [] && (Mandatory(h) ==> h.name == "a")
  {
  }

  lemma TreeFits(sql: Reading, rows: seq<Row>)
    requires rows == [ROOT, LEAF] || rows == [ROOT]
    ensures TableFits(sql, Live(NEW_COLUMNS, [], map[], rows)) && Creatable(NEW_TREE)
  {
    KeyIsId(NEW_COLUMNS, map[], rows);
    hide KeyColumns;
    forall i | 0 <= i < |NEW_COLUMNS| ensures NEW_COLUMNS[i].def.check == [] && (Mandatory(NEW_COLUMNS[i]) ==> NEW_COLUMNS[i].name == "a") {
      Unchecked(NEW_COLUMNS[i]);
    }
    assert Apart(["id"], ROOT, LEAF) by { assert "id" in ["id"]; }
  }

  lemma TreeCopies(sql: Reading)
    ensures CopyFits(sql, FOREST, NEW_TREE, [ROOT, LEAF]) && Creatable(NEW_TREE)
  {
    TreeLayouts();
    TreeFits(sql, [ROOT, LEAF]);
    hide Layout, TableFits, Creatable, Bindable, Found;
    forall h | h in NEW_COLUMNS ensures Bindable(FOREST, h) && Found(FOREST, h, ROOT) && Found(FOREST, h, LEAF) { LeafFindsRoot(h); }
  }

  lemma TreeRebuildable()
    ensures Rebuildable(FOREST, NEW_TREE, OLD_TREE)
  {
    TreeLayouts();
    hide Layout, SharedNames, RebuiltRows;
    assert |Scratch(NEW_TREE)| > |"p"|;
    assert NEW_COLUMNS[0].name == OLD_COLUMNS[0].name == "id" && NEW_COLUMNS[1].name == OLD_COLUMNS[1].name == "up";
    assert NEW_COLUMNS[2].name == OLD_COLUMNS[2].name == "a";
    forall h | h in NEW_COLUMNS + OLD_COLUMNS ensures h.def.references.Reference? ==> h.def.references.table == "p" { }
  }

  lemma TreeRuns(sql: Reading)
    ensures var two := Doubled(FOREST, NEW_TREE, [ROOT, LEAF]);
            && Scratch(NEW_TREE) != "p" && Scratch(NEW_TREE) in Without(two, "p")
            && Run(sql, FOREST, RebuildSteps(NEW_TREE, OLD_TREE)) ==
               if Execute(sql, two, DropTable("p")).Some? then Some(Settled(FOREST, NEW_TREE, [ROOT, LEAF])) else None
  {
    var two := Doubled(FOREST, NEW_TREE, [ROOT, LEAF]);
    assert |Scratch(NEW_TREE)| > |"p"|;
    TreeCopied();
    TreeCopies(sql);
    TreeRebuildable();
    hide Layout, SharedNames, RebuiltRows, Without, CopyFits, Execute, Run, RebuildSteps, Rebuildable, Creatable;
    BothThere(FOREST, NEW_TREE, [ROOT, LEAF]);
    RebuildRuns(sql, FOREST, NEW_TREE, OLD_TREE);
    assert FOREST["p"].rows == [ROOT, LEAF];
  }

  lemma LeafRefers()
    ensures Refers(Doubled(FOREST, NEW_TREE, [ROOT, LEAF]), Scratch(NEW_TREE), 1, HeldOf(Up(Cascade)), "p", 0)
  {
    assert |Scratch(NEW_TREE)| > |"p"|;
    TreeLayouts();
    KeyIsId(OLD_COLUMNS, map[], [ROOT, LEAF]);
    hide Layout, KeyColumns;
    assert NEW_COLUMNS[1] == HeldOf(Up(Cascade));
  }

  /** The root references nothing. */
  lemma RootStays()
    ensures var two := Doubled(FOREST, NEW_TREE, [ROOT, LEAF]);
            && !Deleted(two, "p", Scratch(NEW_TREE), 0) && Reset(two, "p", Scratch(NEW_TREE), 0) == ROOT
  {
    var two, scratch := Doubled(FOREST, NEW_TREE, [ROOT, LEAF]), Scratch(NEW_TREE);
    assert |scratch| > |"p"|;
    TreeLayouts();
    hide Layout;
    forall h, y, j: nat ensures !Refers(two, scratch, 0, h, y, j) { assert ValueAt(ROOT, "up") == Null; }
    forall n: nat ensures !Doomed(two, "p", n, scratch, 0) { }
    forall c, action ensures !ResetBy(two, "p", scratch, 0, c, action) { }
  }

  lemma LeafGone()
    ensures var two := Doubled(FOREST, NEW_TREE, [ROOT, LEAF]);
            Without(two, "p") == map[Scratch(NEW_TREE) := Made(NEW_TREE, [ROOT])] && Deleted(two, "p", Scratch(NEW_TREE), 1)
  {
    var two, scratch := Doubled(FOREST, NEW_TREE, [ROOT, LEAF]), Scratch(NEW_TREE);
    assert |scratch| > |"p"|;
    LeafRefers();
    RootStays();
    hide Layout, Deleted, Reset, Refers, IndexMap, ValueAt;
    ActionTaken(two, "p", scratch, 1, HeldOf(Up(Cascade)), 0);
    TwoStay(two, scratch);
    hide Staying;
  }

  lemma TwoStay(db: Db, x: string)
    requires x in db && |db[x].rows| == 2 && !Deleted(db, "p", x, 0) && Reset(db, "p", x, 0) == ROOT && Deleted(db, "p", x, 1)
    ensures Staying(db, "p", x, 2) == [ROOT]
  {
    hide Deleted, Reset;
    assert Staying(db, "p", x, 0) == [] && Staying(db, "p", x, 1) == [ROOT];
  }

  lemma NoneOrphaned()
    ensures !Orphans(Doubled(FOREST, NEW_TREE, [ROOT, LEAF]), "p")
  {
    var two, scratch := Doubled(FOREST, NEW_TREE, [ROOT, LEAF]), Scratch(NEW_TREE);
    LeafGone();
    RootStays();
    hide Layout, Deleted, Reset, Refers, IndexMap, Without, Bound;
    forall h | h in two[scratch].columns ensures Found(Without(two, "p"), h, ROOT) {
      TreeLayouts();
      assert ValueAt(ROOT, "up") == Null;
    }
  }

  lemma TreeDrops(sql: Reading)
    ensures Execute(sql, Doubled(FOREST, NEW_TREE, [ROOT, LEAF]), DropTable("p")).Some?
  {
    LeafGone();
    TreeLayouts();
    TreeFits(sql, [ROOT]);
    NoneOrphaned();
    hide Layout, Deleted, Orphans, TableFits, Without, Execute;
    assert Made(NEW_TREE, [ROOT]) == Live(NEW_COLUMNS, [], map[], [ROOT]);
    DropSucceeds(sql, Doubled(FOREST, NEW_TREE, [ROOT, LEAF]), "p");
  }

  /** A table that references itself and cascades loses every row with a parent, for the copies still reference the old table. */
  lemma CascadeTakesOwnRows(sql: Reading)
    ensures FOREST["p"].rows == [ROOT, LEAF]
    ensures Run(sql, FOREST, RebuildSteps(NEW_TREE, OLD_TREE)) == Some(map["p" := LiveOf(NEW_TREE, [ROOT])])
  {
    TreeRuns(sql);
    LeafGone();
    TreeDrops(sql);
    hide Run, RebuildSteps, Layout, Deleted, Without, IndexMap, Execute;
    assert Settled(FOREST, NEW_TREE, [ROOT, LEAF]) == map["p" := LiveOf(NEW_TREE, [ROOT])];
  }
}
