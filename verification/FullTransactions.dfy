/** Full writes. */
module FullTransactions {
  // A transaction, with every operation, nested savepoint, mid-way flush and hook it runs, leaves the user columns and deletions of a
  // naive writer that runs beside it: no snapshots, no diffs and no flushed marks, each flush stores every tracked entity in full.

  import opened Options
  import opened Tracking
  import opened Flush
  import opened FullWrite
  import opened Savepoints
  import opened Transactions

  // ---- The naive writer ---------------------------------------------------------------------

  function NaiveSave(view: View, s: TxState, refuse: set<Ptr>): View {
    StoreAll(view, AfterSave(s, refuse).tx.world.mem, s.tracked.entries, |s.tracked.entries|)
  }

  /** What the naive writer's rows look like after an operation; a savepoint that does not end well takes everything in it back. */
  function NaiveExec(view: View, s: TxState, op: Op): View
    decreases op, 1
  {
    match op
    case RawSql(rows) => Seen(rows)
    case SaveChanges(refuse) => NaiveSave(view, s, refuse)
    case Savepoint(base, body, _, refuse, _) =>
      if Exec(s, op).outcome.Done? then NaiveSave(NaiveAll(view, Opened(s, base), body), ExecAll(Opened(s, base), body), refuse)
      else view
    case _ => view
  }

  function NaiveAll(view: View, s: TxState, ops: seq<Op>): View
    decreases ops, 0
  {
    if ops == [] then view else NaiveAll(NaiveExec(view, s, ops[0]), Exec(s, ops[0]).tx, ops[1..])
  }

  function NaiveHooks(view: View, s: TxState, hooks: seq<Hook>): View
    decreases |hooks|
  {
    if hooks == [] then view else NaiveHooks(NaiveAll(view, s, hooks[0].ops), ExecAll(s, hooks[0].ops), hooks[1..])
  }

  function NaivePlan(view: View, start: TxState, plan: Plan): View {
    var done := ExecAll(start, plan.body);
    var seen := FlushOnly(done, plan.refuse);
    var hooked := RunHooks(seen, plan.hooks).tx;
    NaiveSave(NaiveHooks(NaiveSave(NaiveAll(view, start, plan.body), done, plan.refuse), seen, plan.hooks), hooked, plan.refuseLater)
  }

  // ---- What a program has to mind -----------------------------------------------------------

  /** No tracked entity of the table has the key, and the key came from the table's own strategy. */
  ghost predicate Joins(s: TxState, p: Ptr, key: int) {
    && (p.meta.appAssigned || key < s.world.nextKey)
    && forall e | e in s.tracked.entries && e.entity.meta.table == p.meta.table ::
         e.entity.meta.appAssigned == p.meta.appAssigned && (key != 0 ==> At(s.world.mem, e.entity).key != key)
  }

  /** The row is the one the database has, of a model that can be diffed. */
  ghost predicate IsRow(w: World, p: Ptr, row: Entity) {
    var k := Key(p.meta.table, row.key);
    p.meta.diffable && row.key != 0 && k in w.rows && w.rows[k].fields == row.fields
  }

  /** New values for the columns the entity has, and none for one whose insert or update is already flushed. */
  ghost predicate MayAssign(e: Entry, before: Fields, after: Fields) {
    && (!(e.state.Added? && !e.flushed) ==> after.Keys == before.Keys)
    && (e.flushed && !e.state.Deleted? ==> after == before)
  }

  /** The rows of tracked entities stay. */
  ghost predicate LeavesTracked(s: TxState, rows: Rows) {
    forall e | e in s.tracked.entries ::
      var k := RowKey(s.world.mem, e.entity); (k in rows <==> k in s.world.rows) && (k in rows ==> rows[k] == s.world.rows[k])
  }

  /** What was done in memory to the entities tracked at the start of a savepoint that was rewound: their keys are as they were. */
  ghost predicate LeavesMemory(s: TxState, later: Memory) {
    forall e | e in s.tracked.entries ::
      var before, after := At(s.world.mem, e.entity), At(later, e.entity);
      after.key == before.key && MayAssign(e, before.fields, after.fields) && (e.state.Added? || after.fields.Keys == before.fields.Keys)
  }

  /**
   * One instance for each row, no edit of a flushed entity, loads and attachments that say what the database holds, raw statements
   * that leave tracked rows alone. A savepoint that was rewound may have done anything to the database.
   */
  ghost predicate Careful(s: TxState, op: Op)
    decreases op, 1
  {
    var es, mem := s.tracked.entries, s.world.mem;
    match op
    case Load(p, row) =>
      Has(es, p) || (row.key != 0 && Key(p.meta.table, row.key) in s.tracked.byPK) || (IsRow(s.world, p, row) && Joins(s, p, row.key))
    case Add(p, generated) =>
      var key := At(Stamped(mem, p, generated), p).key;
      Has(es, p) || ((p.meta.appAssigned || key == 0) && Joins(s, p, key))
    case AttachAs(p, state) =>
      && (forall e | e in AfterAttach(s.tracked, mem, p, state).entries && e.entity == p :: Faithful(s.world, e))
      && (Has(es, p) || Joins(s, p, At(mem, p).key))
    case HardRemove(p) => Has(es, p) ==> At(mem, p).key != 0
    case Assign(p, fields) => forall e | e in es && e.entity == p :: MayAssign(e, At(mem, p).fields, fields)
    case RawSql(rows) => LeavesTracked(s, rows)
    case SaveChanges(refuse) => AfterSave(s, refuse).outcome.Done?
    case Savepoint(base, body, _, _, _) =>
      (match Exec(s, op).outcome
       case Done => CarefulAll(Opened(s, base), body)
       case Failed => true
       case Rewound => LeavesMemory(s, Exec(s, op).tx.world.mem)
       case _ => false)
    case _ => true
  }

  ghost predicate CarefulAll(s: TxState, ops: seq<Op>)
    decreases ops, 0
  {
    ops == [] || (Careful(s, ops[0]) && CarefulAll(Exec(s, ops[0]).tx, ops[1..]))
  }

  ghost predicate CarefulHooks(s: TxState, hooks: seq<Hook>)
    decreases |hooks|
  {
    hooks == [] || (CarefulAll(s, hooks[0].ops) && CarefulHooks(ExecAll(s, hooks[0].ops), hooks[1..]))
  }

  ghost predicate CarefulPlan(start: TxState, plan: Plan) {
    CarefulAll(start, plan.body) && CarefulHooks(FlushOnly(ExecAll(start, plan.body), plan.refuse), plan.hooks)
  }

  // ---- Records come, change and go ----------------------------------------------------------

  ghost predicate InStep(s: TxState) { Comparable(s.tracked.entries, s.world) }

  lemma JoinSeparate(s: TxState, now: World, e: Entry)
    requires InStep(s) && now == s.world.(mem := now.mem)
    requires forall x | x in s.tracked.entries :: At(now.mem, x.entity) == At(s.world.mem, x.entity)
    requires Joins(s, e.entity, At(now.mem, e.entity).key)
    ensures Separate(s.tracked.entries + [e], now)
  {
    var es, more := s.tracked.entries, s.tracked.entries + [e];
    hide Faithful;
    forall i | 0 <= i < |es| ensures es[i] in es && more[i] == es[i] { }
    forall i, j, k | 0 <= i < j < |more| && Owns(now.mem, more[i], k) ensures !Owns(now.mem, more[j], k) {
      assert Owns(s.world.mem, es[i], k);
      if j < |es| { assert !Owns(s.world.mem, es[j], k); }
    }
    forall i, j | 0 <= i < |more| && 0 <= j < |more| && more[i].entity.meta.table == more[j].entity.meta.table
      ensures more[i].entity.meta.appAssigned == more[j].entity.meta.appAssigned
    {
      if i < |es| { assert es[i] in es; }
      if j < |es| { assert es[j] in es; }
    }
  }

  lemma JoinComparable(s: TxState, now: World, e: Entry)
    requires InStep(s) && !Has(s.tracked.entries, e.entity) && now == s.world.(mem := now.mem)
    requires forall x | x in s.tracked.entries :: At(now.mem, x.entity) == At(s.world.mem, x.entity)
    requires Faithful(now, e) && Joins(s, e.entity, At(now.mem, e.entity).key)
    ensures Comparable(s.tracked.entries + [e], now)
  {
    var es, more := s.tracked.entries, s.tracked.entries + [e];
    JoinSeparate(s, now, e);
    hide Separate, Joins;
    forall i | 0 <= i < |es| ensures more[i] == es[i] && es[i].entity != e.entity && Faithful(now, es[i]) {
      assert es[i] in es && Faithful(s.world, es[i]);
    }
  }

  /** Records of the same entities, with the same keys. */
  lemma SameKeysComparable(es: seq<Entry>, w: World, after: seq<Entry>, now: World)
    requires Comparable(es, w) && |after| == |es| && w.nextKey <= now.nextKey
    requires forall i | 0 <= i < |es| :: after[i].entity == es[i].entity
    requires forall i | 0 <= i < |es| :: At(now.mem, es[i].entity).key == At(w.mem, es[i].entity).key
    requires forall i | 0 <= i < |es| :: Faithful(now, after[i])
    ensures Comparable(after, now)
  {
    hide Faithful;
    forall i, k | 0 <= i < |es| ensures Owns(now.mem, after[i], k) == Owns(w.mem, es[i], k) { }
    forall i, j, k | 0 <= i < j < |after| && Owns(now.mem, after[i], k) ensures !Owns(now.mem, after[j], k) {
      assert Owns(w.mem, es[i], k) && !Owns(w.mem, es[j], k);
    }
    forall i, j | 0 <= i < |after| && 0 <= j < |after| && after[i].entity.meta.table == after[j].entity.meta.table
      ensures after[i].entity.meta.appAssigned == after[j].entity.meta.appAssigned
    {
      assert es[i].entity.meta.table == es[j].entity.meta.table;
    }
  }

  /** Some of the records. */
  lemma FewerComparable(es: seq<Entry>, w: World, some: seq<Entry>)
    requires Comparable(es, w) && OneEach(some) && forall e | e in some :: e in es
    ensures Comparable(some, w)
  {
    hide Faithful;
    forall i | 0 <= i < |some| ensures exists a | 0 <= a < |es| :: es[a] == some[i] { assert some[i] in some; }
    forall i, j, k | 0 <= i < j < |some| && Owns(w.mem, some[i], k) ensures !Owns(w.mem, some[j], k) {
      NotBoth(es, w, some[i], some[j], k);
    }
    forall i, j | 0 <= i < |some| && 0 <= j < |some| && some[i].entity.meta.table == some[j].entity.meta.table
      ensures some[i].entity.meta.appAssigned == some[j].entity.meta.appAssigned
    {
      var a :| 0 <= a < |es| && es[a] == some[i];
      var b :| 0 <= b < |es| && es[b] == some[j];
    }
  }

  lemma DetachComparable(s: TxState, p: Ptr)
    requires InStep(s)
    ensures Comparable(AfterDetach(s.tracked, s.world.mem, p).entries, s.world)
  {
    if Has(s.tracked.entries, p) {
      WithoutOneEach(s.tracked.entries, p, |s.tracked.entries|);
      FewerComparable(s.tracked.entries, s.world, Without(s.tracked.entries, p, |s.tracked.entries|));
    }
  }

  // ---- One operation ------------------------------------------------------------------------

  lemma OthersStay(es: seq<Entry>, mem: Memory, p: Ptr, e: Entity)
    requires !Has(es, p)
    ensures forall x | x in es :: At(mem[p := e], x.entity) == At(mem, x.entity)
  {
  }

  lemma LoadInStep(s: TxState, p: Ptr, row: Entity)
    requires InStep(s) && Careful(s, Load(p, row))
    ensures InStep(Simple(s, Load(p, row)))
  {
    var es, now := s.tracked.entries, s.world.(mem := s.world.mem[p := row]);
    if !Has(es, p) {
      OthersStay(es, s.world.mem, p, row);
      if row.key != 0 && Key(p.meta.table, row.key) in s.tracked.byPK {
        forall i | 0 <= i < |es| ensures Faithful(now, es[i]) { assert es[i] in es && Faithful(s.world, es[i]); }
        SameKeysComparable(es, s.world, es, now);
      } else {
        JoinComparable(s, now, NewEntry(p, Unchanged, SnapshotOf(now.mem, p), false, true));
      }
    }
  }

  lemma AddInStep(s: TxState, p: Ptr, generated: int)
    requires InStep(s) && Careful(s, Add(p, generated))
    ensures InStep(Simple(s, Add(p, generated)))
  {
    var now := s.world.(mem := Stamped(s.world.mem, p, generated));
    if !Has(s.tracked.entries, p) {
      OthersStay(s.tracked.entries, s.world.mem, p, At(s.world.mem, p).(key := generated));
      JoinComparable(s, now, NewEntry(p, EntityState.Added, None, false, false));
    }
  }

  lemma AttachInStep(s: TxState, p: Ptr, state: EntityState)
    requires InStep(s) && Careful(s, AttachAs(p, state))
    ensures InStep(Simple(s, AttachAs(p, state)))
  {
    var es, now := s.tracked.entries, AfterAttach(s.tracked, s.world.mem, p, state).entries;
    if Has(es, p) {
      forall i | 0 <= i < |es| ensures Faithful(s.world, now[i]) {
        assert now[i] in now && Faithful(s.world, es[i]);
        assert es[i].entity != p ==> now[i] == es[i];
      }
      SameKeysComparable(es, s.world, now, s.world);
    } else {
      var e := NewEntry(p, state, if state.Unchanged? then SnapshotOf(s.world.mem, p) else None, state.Modified?, state.Unchanged?);
      assert now == es + [e] && now[|es|] == e;
      JoinComparable(s, s.world, e);
    }
  }

  lemma DeletedFaithful(w: World, e: Entry, gone: Entry)
    requires Faithful(w, e) && At(w.mem, e.entity).key != 0
    requires gone.entity == e.entity && gone.state.Deleted? && !gone.flushed
    ensures Faithful(w, gone)
  {
  }

  lemma KeySet(w: World, e: Entry)
    requires Faithful(w, e) && !(e.state.Added? && !e.flushed)
    ensures At(w.mem, e.entity).key != 0
  {
  }

  lemma RemoveInStep(s: TxState, p: Ptr)
    requires InStep(s)
    ensures InStep(Simple(s, Remove(p)))
  {
    var es, now := s.tracked.entries, Simple(s, Remove(p)).tracked.entries;
    if PendingInsert(es, p) {
      DetachComparable(s, p);
    } else if Has(es, p) {
      hide Faithful;
      forall i | 0 <= i < |es| ensures Faithful(s.world, now[i]) {
        assert Faithful(s.world, es[i]);
        if es[i].entity == p {
          KeySet(s.world, es[i]);
          DeletedFaithful(s.world, es[i], now[i]);
        }
      }
      SameKeysComparable(es, s.world, now, s.world);
    }
  }

  lemma HardRemoveInStep(s: TxState, p: Ptr)
    requires InStep(s) && Careful(s, HardRemove(p))
    ensures InStep(Simple(s, HardRemove(p)))
  {
    var es, now := s.tracked.entries, Simple(s, HardRemove(p)).tracked.entries;
    if Has(es, p) {
      hide Faithful;
      forall i | 0 <= i < |es| ensures Faithful(s.world, now[i]) {
        assert Faithful(s.world, es[i]);
        if es[i].entity == p { DeletedFaithful(s.world, es[i], now[i]); }
      }
      SameKeysComparable(es, s.world, now, s.world);
    }
  }

  /** An entity edited where no flush has seen it yet, or a rewound flush. */
  lemma EditedFaithful(w: World, now: World, e: Entry)
    requires Faithful(w, e) && now.rows == w.rows
    requires At(now.mem, e.entity).key == At(w.mem, e.entity).key
    requires MayAssign(e, At(w.mem, e.entity).fields, At(now.mem, e.entity).fields)
    ensures Faithful(now, e)
  {
    var before, after := At(w.mem, e.entity).fields, At(now.mem, e.entity).fields;
    assert after.Keys == before.Keys && before != map[] ==> after != map[] by {
      if before != map[] { var c :| c in before; assert c in before.Keys; }
    }
  }

  lemma AssignInStep(s: TxState, p: Ptr, fields: Fields)
    requires InStep(s) && Careful(s, Assign(p, fields))
    ensures InStep(Simple(s, Assign(p, fields)))
  {
    var es, now := s.tracked.entries, Simple(s, Assign(p, fields)).world;
    hide Faithful;
    forall i | 0 <= i < |es| ensures Faithful(now, es[i]) {
      assert es[i] in es && Faithful(s.world, es[i]);
      EditedFaithful(s.world, now, es[i]);
    }
    SameKeysComparable(es, s.world, es, now);
  }

  lemma RaiseInStep(s: TxState, p: Ptr, event: int)
    requires InStep(s)
    ensures InStep(Simple(s, Raise(p, event)))
  {
    var es, now := s.tracked.entries, Simple(s, Raise(p, event)).world;
    hide Faithful;
    forall i | 0 <= i < |es| ensures Faithful(now, es[i]) {
      assert Faithful(s.world, es[i]);
      EditedFaithful(s.world, now, es[i]);
    }
    SameKeysComparable(es, s.world, es, now);
  }

  lemma RawInStep(s: TxState, rows: Rows)
    requires InStep(s) && LeavesTracked(s, rows)
    ensures InStep(Simple(s, RawSql(rows)))
  {
    var es, now := s.tracked.entries, Simple(s, RawSql(rows)).world;
    forall i | 0 <= i < |es| ensures Faithful(now, es[i]) { assert es[i] in es && Faithful(s.world, es[i]); }
    SameKeysComparable(es, s.world, es, now);
  }

  /** An operation that sends no flush keeps memory, records and rows in step. */
  lemma SimpleInStep(s: TxState, op: Op)
    requires !op.Savepoint? && !op.SaveChanges? && InStep(s) && Careful(s, op)
    ensures InStep(Simple(s, op)) && (!op.RawSql? ==> Simple(s, op).world.rows == s.world.rows)
  {
    match op
    case Load(p, row) => LoadInStep(s, p, row);
    case Add(p, generated) => AddInStep(s, p, generated);
    case AttachAs(p, state) => AttachInStep(s, p, state);
    case DetachIt(p) => DetachComparable(s, p);
    case Remove(p) => RemoveInStep(s, p);
    case HardRemove(p) => HardRemoveInStep(s, p);
    case Assign(p, fields) => AssignInStep(s, p, fields);
    case Raise(p, event) => RaiseInStep(s, p, event);
    case RawSql(rows) => RawInStep(s, rows);
  }

  // ---- Whole programs -----------------------------------------------------------------------

  /** Keys are never taken back. */
  lemma {:induction false} RunKeysGrow(w: World, work: seq<Entry>, n: nat, refuse: set<Ptr>)
    requires n <= |work|
    ensures w.nextKey <= RunList(w, work, n, refuse).world.nextKey
  {
    if n > 0 { RunKeysGrow(w, work, n - 1, refuse); }
  }

  lemma SaveKeysGrow(s: TxState, refuse: set<Ptr>)
    ensures s.world.nextKey <= AfterSave(s, refuse).tx.world.nextKey
  {
    var work := Work(AfterDetect(s.tracked, s.world.mem).entries);
    RunKeysGrow(s.world, work, |work|, refuse);
    hide RunList, Work, AfterDetect;
  }

  lemma EndKeysGrow(s: TxState, now: TxState, name: Name, faults: Faults)
    ensures Rewind(s, now, name, faults).tx.world.nextKey == now.world.nextKey == Release(s, now, name, faults).tx.world.nextKey
  {
    hide Found, AfterRestore;
  }

  lemma {:induction false} KeysGrow(s: TxState, op: Op)
    ensures s.world.nextKey <= Exec(s, op).tx.world.nextKey
    decreases op, 1
  {
    hide AfterSave, Rewind, Release, ExecAll;
    if op.SaveChanges? {
      SaveKeysGrow(s, op.refuse);
    } else if op.Savepoint? && !op.faults.opening {
      var inner, name := ExecAll(Opened(s, op.base), op.body), Name(op.base, s.counter + 1);
      AllKeysGrow(Opened(s, op.base), op.body);
      SavepointEnds(s, op);
      SaveKeysGrow(inner, op.refuse);
      EndKeysGrow(s, inner, name, op.faults);
      EndKeysGrow(s, AfterSave(inner, op.refuse).tx, name, op.faults);
    }
  }

  lemma {:induction false} AllKeysGrow(s: TxState, ops: seq<Op>)
    ensures s.world.nextKey <= ExecAll(s, ops).world.nextKey
    decreases ops, 0
  {
    hide Exec;
    if ops != [] {
      KeysGrow(s, ops[0]);
      AllKeysGrow(Exec(s, ops[0]).tx, ops[1..]);
    }
  }

  lemma SaveInStep(s: TxState, refuse: set<Ptr>, view: View)
    requires InStep(s) && view == Seen(s.world.rows) && AfterSave(s, refuse).outcome.Done?
    ensures InStep(AfterSave(s, refuse).tx) && Seen(AfterSave(s, refuse).tx.world.rows) == NaiveSave(view, s, refuse)
  {
    hide FlushAll, Comparable, StoreAll;
    FlushIsAFullWrite(s.tracked, s.world, refuse);
    StaysComparable(s.tracked, s.world, refuse);
  }

  lemma RewoundInStep(s: TxState, op: Op)
    requires Numbered(s) && op.Savepoint? && InStep(s) && Careful(s, op) && Exec(s, op).outcome.Rewound?
    ensures InStep(Exec(s, op).tx) && Exec(s, op).tx.world.rows == s.world.rows
  {
    var es, now := s.tracked.entries, Exec(s, op).tx;
    RewoundAsBefore(s, op);
    KeysGrow(s, op);
    hide Exec, Faithful, Numbered;
    forall i | 0 <= i < |es| ensures Faithful(now.world, es[i]) {
      assert es[i] in es && Faithful(s.world, es[i]);
      EditedFaithful(s.world, now.world, es[i]);
    }
    SameKeysComparable(es, s.world, es, now.world);
  }

  lemma OpenedInStep(s: TxState, base: string)
    requires InStep(s) && Numbered(s)
    ensures InStep(Opened(s, base)) && Numbered(Opened(s, base)) && Opened(s, base).world == s.world
  {
    OpenedExtends(s, base);
    hide Comparable;
  }

  lemma ReleasedIsSaved(s: TxState, op: Op)
    requires op.Savepoint? && Exec(s, op).outcome.Done?
    ensures var saved := AfterSave(ExecAll(Opened(s, op.base), op.body), op.refuse);
            saved.outcome.Done? && Exec(s, op).tx.tracked == saved.tx.tracked && Exec(s, op).tx.world == saved.tx.world
  {
    hide FlushAll, ExecAll, Found, AfterRestore;
  }

  lemma OpeningFails(s: TxState, op: Op)
    requires op.Savepoint? && Exec(s, op).outcome.Failed?
    ensures Exec(s, op).tx.tracked == s.tracked && Exec(s, op).tx.world == s.world
  {
    hide AfterSave, ExecAll, Found, AfterRestore;
  }

  /** Through every careful operation the transaction's rows read as the naive writer's. */
  lemma {:induction false} ExecIsNaive(s: TxState, op: Op, view: View)
    requires Numbered(s) && InStep(s) && Careful(s, op) && view == Seen(s.world.rows)
    ensures InStep(Exec(s, op).tx) && Seen(Exec(s, op).tx.world.rows) == NaiveExec(view, s, op)
    decreases op, 1
  {
    if op.SaveChanges? {
      hide Comparable, Numbered, AfterSave, NaiveSave;
      SaveInStep(s, op.refuse, view);
    } else if !op.Savepoint? {
      SimpleInStep(s, op);
      hide Comparable, Numbered, Simple;
    } else {
      SavepointIsNaive(s, op, view);
    }
  }

  lemma {:induction false} SavepointIsNaive(s: TxState, op: Op, view: View)
    requires op.Savepoint? && Numbered(s) && InStep(s) && Careful(s, op) && view == Seen(s.world.rows)
    ensures InStep(Exec(s, op).tx) && Seen(Exec(s, op).tx.world.rows) == NaiveExec(view, s, op)
    decreases op, 0
  {
    hide Exec, Comparable, Numbered, AfterSave, NaiveSave, Opened, ExecAll, NaiveAll;
    match Exec(s, op).outcome
    case Done =>
      OpenedInStep(s, op.base);
      AllIsNaive(Opened(s, op.base), op.body, view);
      ReleasedIsSaved(s, op);
      SaveInStep(ExecAll(Opened(s, op.base), op.body), op.refuse, NaiveAll(view, Opened(s, op.base), op.body));
    case Failed => OpeningFails(s, op);
    case Rewound => RewoundInStep(s, op);
    case _ =>
  }

  lemma {:induction false} AllIsNaive(s: TxState, ops: seq<Op>, view: View)
    requires Numbered(s) && InStep(s) && CarefulAll(s, ops) && view == Seen(s.world.rows)
    ensures InStep(ExecAll(s, ops)) && Seen(ExecAll(s, ops).world.rows) == NaiveAll(view, s, ops)
    decreases ops, 0
  {
    hide InStep, Exec, Careful, NaiveExec, Numbered;
    if ops != [] {
      ExecIsNaive(s, ops[0], view);
      ExecExtends(s, ops[0]);
      AllIsNaive(Exec(s, ops[0]).tx, ops[1..], NaiveExec(view, s, ops[0]));
    }
  }

  lemma {:induction false} HooksAreNaive(s: TxState, hooks: seq<Hook>, view: View)
    requires Numbered(s) && InStep(s) && CarefulHooks(s, hooks) && view == Seen(s.world.rows) && RunHooks(s, hooks).ok
    ensures InStep(RunHooks(s, hooks).tx) && Seen(RunHooks(s, hooks).tx.world.rows) == NaiveHooks(view, s, hooks)
    decreases |hooks|
  {
    hide InStep, ExecAll, CarefulAll, NaiveAll, Numbered;
    if hooks != [] {
      AllIsNaive(s, hooks[0].ops, view);
      ExecAllExtends(s, hooks[0].ops);
      HooksAreNaive(ExecAll(s, hooks[0].ops), hooks[1..], NaiveAll(view, s, hooks[0].ops));
    }
  }

  // ---- The theorem --------------------------------------------------------------------------

  lemma BeginInStep(store: Store, nextKey: int, mem: Memory)
    requires nextKey > 0
    ensures InStep(Begin(store, nextKey, mem)) && Numbered(Begin(store, nextKey, mem))
  {
  }

  lemma FlushOnlyInStep(s: TxState, refuse: set<Ptr>, view: View)
    requires Numbered(s) && InStep(s) && view == Seen(s.world.rows) && AfterSave(s, refuse).outcome.Done?
    ensures InStep(FlushOnly(s, refuse)) && Numbered(FlushOnly(s, refuse))
    ensures Seen(FlushOnly(s, refuse).world.rows) == NaiveSave(view, s, refuse)
  {
    SaveInStep(s, refuse, view);
    FlushOnlyExtends(s, refuse);
    hide AfterSave, Comparable, Numbered, NaiveSave;
  }

  /** What a committed transaction went through. */
  lemma CommittedRan(start: TxState, plan: Plan)
    requires Numbered(start) && Attempted(start, plan).ok
    ensures var done := ExecAll(start, plan.body);
            var hooked := RunHooks(FlushOnly(done, plan.refuse), plan.hooks);
            && AfterSave(done, plan.refuse).outcome.Done? && hooked.ok && AfterSave(hooked.tx, plan.refuseLater).outcome.Done?
            && Attempted(start, plan).tx.world.rows == FlushOnly(hooked.tx, plan.refuseLater).world.rows
  {
    var done := ExecAll(start, plan.body);
    var seen := FlushOnly(done, plan.refuse);
    var hooked := RunHooks(seen, plan.hooks).tx;
    var last, events := FlushOnly(hooked, plan.refuseLater), done.held + NewEvents(done, plan.refuse) + NewEvents(hooked, plan.refuseLater);
    ExecAllExtends(start, plan.body);
    FlushOnlyExtends(done, plan.refuse);
    HooksExtend(seen, plan.hooks);
    FlushOnlyExtends(hooked, plan.refuseLater);
    hide ExecAll, RunHooks, FlushAll, Numbered, Extends, RunSinks, AfterCommit, NewEvents;
    SinksExtend(last, plan.sinks, events);
  }

  /**
   * A transaction that commits leaves exactly the user columns and deletions that the naive writer leaves, from its own beginning
   * through every operation, flush, savepoint and hook.
   */
  lemma TransactionIsAFullWrite(store: Store, nextKey: int, mem: Memory, plan: Plan)
    requires nextKey > 0 && CarefulPlan(Begin(store, nextKey, mem), plan) && Transaction(store, nextKey, mem, plan).ok
    ensures Seen(Transaction(store, nextKey, mem, plan).store.rows) == NaivePlan(Seen(store.rows), Begin(store, nextKey, mem), plan)
  {
    var start := Begin(store, nextKey, mem);
    var done := ExecAll(start, plan.body);
    var seen := FlushOnly(done, plan.refuse);
    var hooked := RunHooks(seen, plan.hooks).tx;
    BeginInStep(store, nextKey, mem);
    ExecAllExtends(start, plan.body);
    hide ExecAll, RunHooks, AfterSave, InStep, Numbered, Attempted, FlushOnly, CarefulAll, CarefulHooks, NaiveAll, NaiveHooks, NaiveSave;
    CommittedRan(start, plan);
    var first := NaiveAll(Seen(store.rows), start, plan.body);
    AllIsNaive(start, plan.body, Seen(store.rows));
    FlushOnlyInStep(done, plan.refuse, first);
    HooksAreNaive(seen, plan.hooks, NaiveSave(first, done, plan.refuse));
    HooksExtend(seen, plan.hooks);
    FlushOnlyInStep(hooked, plan.refuseLater, NaiveHooks(NaiveSave(first, done, plan.refuse), seen, plan.hooks));
  }

  /** Only operations that reach the database at the next flush. */
  predicate Staging(ops: seq<Op>) { forall j | 0 <= j < |ops| :: !ops[j].SaveChanges? && !ops[j].Savepoint? && !ops[j].RawSql? }

  lemma {:induction false} StagingIsUnseen(view: View, s: TxState, ops: seq<Op>)
    requires Staging(ops)
    ensures NaiveAll(view, s, ops) == view
    decreases |ops|
  {
    hide Exec;
    if ops != [] {
      assert !ops[0].SaveChanges? && !ops[0].Savepoint? && !ops[0].RawSql?;
      StagingIsUnseen(view, Exec(s, ops[0]).tx, ops[1..]);
    }
  }

  lemma NothingMore(done: TxState, refuse: set<Ptr>, again: set<Ptr>)
    requires AfterSave(done, refuse).outcome.Done?
    ensures FlushOnly(FlushOnly(done, refuse), again).world == FlushOnly(done, refuse).world
  {
    SecondFlushIsEmpty(done.tracked, done.world, refuse, again);
    hide FlushAll;
  }

  /** Without savepoints, raw statements and hooks: every tracked entity is stored in full over the rows of the beginning. */
  lemma StagedWorkIsAFullWrite(store: Store, nextKey: int, mem: Memory, plan: Plan)
    requires nextKey > 0 && CarefulPlan(Begin(store, nextKey, mem), plan) && Transaction(store, nextKey, mem, plan).ok
    requires Staging(plan.body) && plan.hooks == []
    ensures var done := ExecAll(Begin(store, nextKey, mem), plan.body);
            Seen(Transaction(store, nextKey, mem, plan).store.rows) ==
            StoreAll(Seen(store.rows), AfterSave(done, plan.refuse).tx.world.mem, done.tracked.entries, |done.tracked.entries|)
  {
    var start := Begin(store, nextKey, mem);
    var done := ExecAll(start, plan.body);
    BeginInStep(store, nextKey, mem);
    ExecAllExtends(start, plan.body);
    StagingIsUnseen(Seen(store.rows), start, plan.body);
    AllIsNaive(start, plan.body, Seen(store.rows));
    hide ExecAll, AfterSave, InStep, Numbered, Attempted, FlushOnly, CarefulAll, CarefulHooks, NaiveAll;
    CommittedRan(start, plan);
    FlushOnlyInStep(done, plan.refuse, Seen(store.rows));
    NothingMore(done, plan.refuse, plan.refuseLater);
    hide StoreAll;
  }

  // ---- Edits after a flush ------------------------------------------------------------------

  /** After a flush nothing is left to find, and nothing to emit. */
  lemma FlushedOut(s: TxState, refuse: set<Ptr>)
    requires OneEach(s.tracked.entries) && AfterSave(s, refuse).outcome.Done?
    ensures var now := AfterSave(s, refuse).tx;
            && OneEach(now.tracked.entries) && AfterDetect(now.tracked, now.world.mem).entries == now.tracked.entries
            && forall x | x in now.tracked.entries :: x.flushed || x.state.Unchanged?
  {
    var work := Work(AfterDetect(s.tracked, s.world.mem).entries);
    RunKeepsValues(s.world, work, |work|, refuse);
    FoundOnce(s.tracked, s.world.mem, FlushAll(s.tracked, s.world, refuse).world.mem);
    FlushPointers(s.tracked, s.world, refuse);
    hide RunList, Work, AfterDetect, SamePointers, KeepsValues;
  }

  /** An edit of an emitted entity is not found. */
  lemma EditUnfound(t: Contents, mem: Memory, e: Entry, edited: Entity)
    requires OneEach(t.entries) && AfterDetect(t, mem).entries == t.entries && e in t.entries && !e.state.Unchanged?
    ensures AfterDetect(t, mem[e.entity := edited]).entries == t.entries
  {
    var later := mem[e.entity := edited];
    forall i | 0 <= i < |t.entries| ensures Detected(later, t.entries[i]) == t.entries[i] {
      assert AfterDetect(t, mem).entries[i] == t.entries[i];
      if t.entries[i].entity == e.entity && t.entries[i] != e { Unshared(t.entries, t.entries[i], e); }
    }
  }

  lemma EmittedIsStored(s: TxState, e: Entry)
    requires InStep(s) && e in s.tracked.entries && e.flushed && !e.state.Unchanged? && !e.state.Deleted?
    ensures RowKey(s.world.mem, e.entity) in s.world.rows
    ensures s.world.rows[RowKey(s.world.mem, e.entity)].fields == At(s.world.mem, e.entity).fields
  {
    var i :| 0 <= i < |s.tracked.entries| && s.tracked.entries[i] == e;
    assert Faithful(s.world, s.tracked.entries[i]);
  }

  /** An entity edited after its flush is not flushed again: the edit is in the database only if it changes nothing. */
  lemma EditAfterFlushIsLost(s: TxState, refuse: set<Ptr>, e: Entry, fields: Fields, again: set<Ptr>)
    requires InStep(s) && AfterSave(s, refuse).outcome.Done?
    requires e in AfterSave(s, refuse).tx.tracked.entries && e.flushed && !e.state.Unchanged? && !e.state.Deleted?
    ensures var now := AfterSave(s, refuse).tx;
            var end := AfterSave(Simple(now, Assign(e.entity, fields)), again);
            var k := RowKey(end.tx.world.mem, e.entity);
            && end.outcome.Done? && end.tx.world.rows == now.world.rows && k in now.world.rows
            && (end.tx.world.rows[k].fields == fields <==> fields == At(now.world.mem, e.entity).fields)
  {
    var now := AfterSave(s, refuse).tx;
    SaveInStep(s, refuse, Seen(s.world.rows));
    FlushedOut(s, refuse);
    hide AfterSave, Comparable, OneEach, AfterDetect;
    EmittedIsStored(now, e);
    EditFlushed(now, e, fields, again);
  }

  lemma EditFlushed(now: TxState, e: Entry, fields: Fields, again: set<Ptr>)
    requires OneEach(now.tracked.entries) && AfterDetect(now.tracked, now.world.mem).entries == now.tracked.entries
    requires forall x | x in now.tracked.entries :: x.flushed || x.state.Unchanged?
    requires e in now.tracked.entries && !e.state.Unchanged?
    ensures var edited := Simple(now, Assign(e.entity, fields));
            var end := AfterSave(edited, again);
            && end.outcome.Done? && end.tx.world == edited.world && edited.world.rows == now.world.rows
            && RowKey(edited.world.mem, e.entity) == RowKey(now.world.mem, e.entity)
  {
    EditUnfound(now.tracked, now.world.mem, e, At(now.world.mem, e.entity).(fields := fields));
    hide OneEach, AfterDetect, AfterSave, Work;
    NoWork(now.tracked.entries);
    EmptyFlush(Simple(now, Assign(e.entity, fields)), again);
  }

  lemma EmptyFlush(s: TxState, refuse: set<Ptr>)
    requires AfterDetect(s.tracked, s.world.mem).entries == s.tracked.entries && Work(s.tracked.entries) == []
    ensures AfterSave(s, refuse).outcome.Done? && AfterSave(s, refuse).tx.world == s.world
  {
  }
}
