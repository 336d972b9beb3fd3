/** Optimistic locking. */
module Versions {
  // A versioned update or delete goes through only if the row still has the version held in memory, whatever savepoints
  // the program nests or rewinds: of two transactions that read one version, at most one commits a change to the row.

  import opened Options
  import opened Tracking
  import opened Flush
  import opened Savepoints
  import opened Transactions

  function RowAt(rows: Rows, k: Key): Option<DbRow> { if k in rows then Some(rows[k]) else None }

  // ---- One statement ------------------------------------------------------------------------

  /** The row has the version that is in memory. */
  predicate Current(w: World, p: Ptr) {
    RowKey(w.mem, p) in w.rows && w.rows[RowKey(w.mem, p)].version == At(w.mem, p).version
  }

  /** The record's statement would change its row. */
  predicate Writes(mem: Memory, e: Entry) { e.state.Deleted? || (e.state.Modified? && Changes(mem, e) != map[]) }

  /** Nothing but this row, and this entity in memory, changed. */
  ghost predicate OnlyAt(w: World, next: World, k: Key, p: Ptr) {
    && (forall other | other != k :: RowAt(next.rows, other) == RowAt(w.rows, other))
    && (forall q | q != p :: At(next.mem, q) == At(w.mem, q))
    && next.outbox == w.outbox
  }

  /** An update leaves the row one version on, with its columns replaced, and memory at the row's new version. */
  ghost predicate Bumped(w: World, next: World, e: Entry) {
    var k := RowKey(w.mem, e.entity);
    && k in w.rows && k in next.rows
    && next.rows[k].version == w.rows[k].version + 1 == At(next.mem, e.entity).version
    && next.rows[k].deleted == w.rows[k].deleted
    && next.rows[k].fields == w.rows[k].fields + Changes(w.mem, e)
    && At(next.mem, e.entity) == At(w.mem, e.entity).(version := w.rows[k].version + 1)
  }

  /** A delete removes the row, or marks it deleted one version on. */
  ghost predicate Gone(w: World, next: World, e: Entry) {
    var k := RowKey(w.mem, e.entity);
    && k in w.rows && next.mem == w.mem
    && RowAt(next.rows, k) == if e.entity.meta.softDelete && !e.hardDelete
                              then Some(DbRow(w.rows[k].fields, w.rows[k].version + 1, true)) else None
  }

  /** A versioned update or delete that the database does not refuse succeeds exactly on the version in memory. */
  lemma VersionedWrite(w: World, e: Entry, refuse: set<Ptr>)
    requires e.entity.meta.versioned && e.entity !in refuse && Writes(w.mem, e)
    ensures Statement(w, e, refuse).Some? <==> Current(w, e.entity)
    ensures Current(w, e.entity) ==>
              var next := Statement(w, e, refuse).value;
              && OnlyAt(w, next, RowKey(w.mem, e.entity), e.entity) && next.nextKey == w.nextKey
              && (if e.state.Modified? then Bumped(w, next, e) else Gone(w, next, e))
  {
  }

  /** An insert never replaces a row; it starts at version 1 in the row and in memory. */
  lemma InsertStartsAtOne(w: World, e: Entry, refuse: set<Ptr>)
    requires e.entity.meta.versioned && e.state.Added? && Statement(w, e, refuse).Some?
    ensures var next := Statement(w, e, refuse).value;
            var k := RowKey(next.mem, e.entity);
            && k !in w.rows && RowAt(next.rows, k) == Some(DbRow(At(w.mem, e.entity).fields, 1, false))
            && At(next.mem, e.entity).version == 1
            && OnlyAt(w, next, k, e.entity)
            && (if e.entity.meta.appAssigned then k.key == At(w.mem, e.entity).key != 0 && next.nextKey == w.nextKey
                else k.key == w.nextKey && next.nextKey == w.nextKey + 1)
  {
  }

  // ---- What becomes of a row that was read --------------------------------------------------

  /**
   * What a program keeps of the row at a key. `Stale`: memory holds no entity of that key at the row's version, and the
   * row stays as it is. `Rising`: the row stays as it is, goes for good, or has a higher version.
   */
  datatype Promise = Stale(row: Option<DbRow>, keys: Keys) | Rising(read: DbRow, keys: Keys)

  /** How the row's model gets its keys: from the sequence, or from the application, which inserts these entities only. */
  datatype Keys = Generated | Assigned(inserts: set<Ptr>)

  predicate Kept(pr: Promise, rows: Rows, k: Key) {
    if pr.Stale? then RowAt(rows, k) == pr.row
    else k in rows ==> rows[k] == pr.read || rows[k].version > pr.read.version
  }

  ghost predicate Remembered(pr: Promise, mem: Memory, k: Key) {
    pr.Stale? && pr.row.Some? ==> forall p | RowKey(mem, p) == k :: At(mem, p).version != pr.row.value.version
  }

  /** A missing row stays missing only if nothing is inserted under its key. */
  predicate MayBeMissing(pr: Promise) { pr.Rising? || pr.row.None? }

  /** No insert to come carries the key: the sequence is past it, or the entities to insert have other keys. */
  ghost predicate NotGivenOut(pr: Promise, w: World, k: Key) {
    MayBeMissing(pr) ==>
      if pr.keys.Generated? then w.nextKey > k.key else forall p | p in pr.keys.inserts :: RowKey(w.mem, p) != k
  }

  /** Entities of the row's table are versioned and get their keys as the promise says. */
  predicate Models(pr: Promise, p: Ptr, k: Key) {
    p.meta.table == k.table ==> p.meta.versioned && (MayBeMissing(pr) ==> p.meta.appAssigned == pr.keys.Assigned?)
  }

  /** The entity may be inserted. */
  predicate Insertable(pr: Promise, p: Ptr, k: Key) {
    p.meta.table == k.table && pr.keys.Assigned? && MayBeMissing(pr) ==> p in pr.keys.inserts
  }

  predicate Guards(pr: Promise, e: Entry, k: Key) {
    Models(pr, e.entity, k) && (e.state.Added? ==> Insertable(pr, e.entity, k))
  }

  ghost predicate GuardsAll(pr: Promise, entries: seq<Entry>, k: Key) {
    OneEach(entries) && forall e | e in entries :: Guards(pr, e, k)
  }

  ghost predicate Safe(pr: Promise, w: World, k: Key) {
    Kept(pr, w.rows, k) && Remembered(pr, w.mem, k) && NotGivenOut(pr, w, k)
  }

  ghost predicate Holds(pr: Promise, s: TxState, k: Key) {
    && Safe(pr, s.world, k) && GuardsAll(pr, s.tracked.entries, k)
    && forall m | m in s.stack :: Kept(pr, m.rows, k)
  }

  /** The operation reads no row of the key at the version to be kept, and its raw statements keep the promise. */
  predicate Minds(pr: Promise, op: Op, k: Key) {
    match op
    case Load(p, read) =>
      Models(pr, p, k) && (Key(p.meta.table, read.key) == k ==>
        (pr.Stale? && pr.row.Some? ==> read.version != pr.row.value.version) && (pr.keys.Assigned? ==> p !in pr.keys.inserts))
    case Add(p, generated) => Models(pr, p, k) && Insertable(pr, p, k) && (p.meta.appAssigned ==> Key(p.meta.table, generated) != k)
    case AttachAs(p, state) => Models(pr, p, k) && (state.Added? ==> Insertable(pr, p, k))
    case RawSql(rows) => Kept(pr, rows, k)
    case Savepoint(_, body, _, _, _) => forall i | 0 <= i < |body| :: Minds(pr, body[i], k)
    case _ => true
  }

  predicate AllMind(pr: Promise, ops: seq<Op>, k: Key) { forall i | 0 <= i < |ops| :: Minds(pr, ops[i], k) }

  // ---- Statements ---------------------------------------------------------------------------

  lemma StatementSafe(pr: Promise, w: World, e: Entry, refuse: set<Ptr>, k: Key)
    requires Safe(pr, w, k) && Guards(pr, e, k) && Statement(w, e, refuse).Some?
    ensures Safe(pr, Statement(w, e, refuse).value, k)
  {
    var next := Statement(w, e, refuse).value;
    if pr.keys.Assigned? {
      forall p | p in pr.keys.inserts && RowKey(w.mem, p) != k && MayBeMissing(pr) ensures RowKey(next.mem, p) != k {
        assert p != e.entity ==> At(next.mem, p) == At(w.mem, p);
      }
    }
    if pr.Stale? && pr.row.Some? {
      forall p | RowKey(next.mem, p) == k ensures At(next.mem, p).version != pr.row.value.version {
        assert RowKey(w.mem, p) == k || p == e.entity;
      }
    }
  }

  lemma {:induction false} RunSafe(pr: Promise, w: World, work: seq<Entry>, n: nat, refuse: set<Ptr>, k: Key)
    requires Safe(pr, w, k) && n <= |work| && forall e | e in work :: Guards(pr, e, k)
    ensures Safe(pr, RunList(w, work, n, refuse).world, k)
  {
    hide Safe, Guards, Statement;
    if n > 0 {
      RunSafe(pr, w, work, n - 1, refuse, k);
      var r := RunList(w, work, n - 1, refuse);
      if r.ok && Statement(r.world, work[n - 1], refuse).Some? {
        StatementSafe(pr, r.world, work[n - 1], refuse, k);
      }
    }
  }

  lemma FoundGuards(pr: Promise, t: Contents, mem: Memory, k: Key)
    requires GuardsAll(pr, t.entries, k)
    ensures var found := AfterDetect(t, mem).entries;
            && GuardsAll(pr, found, k) && GuardsAll(pr, AllMarked(found), k)
            && forall e | e in Work(found) :: Guards(pr, e, k)
  {
    var found := AfterDetect(t, mem).entries;
    SamePlaces(pr, t.entries, found, k);
    SamePlaces(pr, found, AllMarked(found), k);
    WorkOnce(found);
  }

  lemma SamePlaces(pr: Promise, a: seq<Entry>, b: seq<Entry>, k: Key)
    requires GuardsAll(pr, a, k) && |a| == |b|
    requires forall i | 0 <= i < |a| :: a[i].entity == b[i].entity && (b[i].state.Added? ==> a[i].state.Added?)
    ensures GuardsAll(pr, b, k)
  {
    forall e | e in b ensures Guards(pr, e, k) {
      var i :| 0 <= i < |b| && b[i] == e;
      assert a[i] in a;
    }
  }

  lemma FlushHolds(pr: Promise, s: TxState, refuse: set<Ptr>, k: Key)
    requires Holds(pr, s, k)
    ensures Holds(pr, AfterSave(s, refuse).tx, k)
  {
    var work := Work(AfterDetect(s.tracked, s.world.mem).entries);
    hide AfterDetect, Work, AllMarked, GuardsAll, Guards, Safe, RunList, Kept;
    FoundGuards(pr, s.tracked, s.world.mem, k);
    RunSafe(pr, s.world, work, |work|, refuse, k);
  }

  // ---- Programs -----------------------------------------------------------------------------

  lemma {:induction false} WithoutGuards(pr: Promise, entries: seq<Entry>, p: Ptr, n: nat, k: Key)
    requires n <= |entries| && forall e | e in entries :: Guards(pr, e, k)
    ensures forall e | e in Without(entries, p, n) :: Guards(pr, e, k)
  {
    hide Guards;
    if n > 0 { WithoutGuards(pr, entries, p, n - 1, k); }
  }

  lemma ChangedGuards(pr: Promise, entries: seq<Entry>, p: Ptr, change: Entry -> Entry, k: Key)
    requires forall e | e in entries :: Guards(pr, e, k)
    requires forall e :: change(e).entity == e.entity && (change(e).state.Added? ==> Insertable(pr, p, k))
    ensures forall e | e in Changed(entries, p, change) :: Guards(pr, e, k)
  {
    var after := Changed(entries, p, change);
    forall e | e in after ensures Guards(pr, e, k) {
      var i :| 0 <= i < |after| && after[i] == e;
      assert entries[i] in entries && e.entity == entries[i].entity;
    }
  }

  lemma EntriesGuarded(pr: Promise, s: TxState, op: Op, k: Key)
    requires GuardsAll(pr, s.tracked.entries, k) && Minds(pr, op, k) && !op.Savepoint? && !op.SaveChanges?
    ensures GuardsAll(pr, Simple(s, op).tracked.entries, k)
  {
    var entries := s.tracked.entries;
    SimpleOneEach(s, op);
    match op
    case AttachAs(p, state) =>
      ChangedGuards(pr, entries, p, (e: Entry) => e.(state := state, forceUpdate := state.Modified?), k);
    case DetachIt(p) => WithoutGuards(pr, entries, p, |entries|, k);
    case Remove(p) =>
      WithoutGuards(pr, entries, p, |entries|, k);
      ChangedGuards(pr, entries, p, (e: Entry) => e.(state := Deleted, everDirty := true, flushed := false), k);
    case HardRemove(p) =>
      ChangedGuards(pr, entries, p, (e: Entry) => e.(state := Deleted, hardDelete := true, everDirty := true, flushed := false), k);
    case _ =>
  }

  lemma SimpleSafe(pr: Promise, s: TxState, op: Op, k: Key)
    requires Safe(pr, s.world, k) && Minds(pr, op, k) && !op.Savepoint? && !op.SaveChanges?
    ensures Safe(pr, Simple(s, op).world, k) && Simple(s, op).stack == s.stack
  {
    hide AfterTrack, AfterMarkAdded, AfterAttach, AfterDetach, AfterRemove, AfterHardRemove, Has, SnapshotOf;
    var next := Simple(s, op).world;
    if pr.Stale? && pr.row.Some? {
      forall p | RowKey(next.mem, p) == k ensures At(next.mem, p).version != pr.row.value.version {
        assert RowKey(s.world.mem, p) == k || op.Load?;
      }
    }
  }

  lemma SimpleHolds(pr: Promise, s: TxState, op: Op, k: Key)
    requires Holds(pr, s, k) && Minds(pr, op, k) && !op.Savepoint? && !op.SaveChanges?
    ensures Holds(pr, Simple(s, op), k)
  {
    hide Safe, GuardsAll, Minds, Simple, Kept;
    EntriesGuarded(pr, s, op, k);
    SimpleSafe(pr, s, op, k);
  }

  lemma MovedBack(pr: Promise, w: World, mark: Mark, k: Key)
    requires Safe(pr, w, k) && Kept(pr, mark.rows, k)
    ensures Safe(pr, w.(rows := mark.rows, outbox := mark.outbox), k)
  {
  }

  lemma EndHolds(pr: Promise, s: TxState, now: TxState, name: Name, faults: Faults, k: Key)
    requires Holds(pr, s, k) && Holds(pr, now, k)
    ensures Holds(pr, Rewind(s, now, name, faults).tx, k) && Holds(pr, Release(s, now, name, faults).tx, k)
  {
    hide Safe, GuardsAll, Kept, FindMark, Reindexed;
    var at := Found(now.stack, name);
    if at.Some? {
      assert now.stack[at.value] in now.stack;
      MovedBack(pr, now.world, now.stack[at.value], k);
    }
  }

  lemma {:induction false} ExecHolds(pr: Promise, s: TxState, op: Op, k: Key)
    requires Holds(pr, s, k) && Minds(pr, op, k)
    ensures Holds(pr, Exec(s, op).tx, k)
    decreases op, 1
  {
    hide AfterSave, Rewind, Release, ExecAll, Simple, Safe, GuardsAll, Kept, Guards;
    if op.SaveChanges? {
      FlushHolds(pr, s, op.refuse, k);
    } else if !op.Savepoint? {
      SimpleHolds(pr, s, op, k);
    } else if !op.faults.opening {
      OpenedHolds(pr, s, op.base, k);
      ExecAllHolds(pr, Opened(s, op.base), op.body, k);
      SavepointHolds(pr, s, op, k);
    }
  }

  lemma OpenedHolds(pr: Promise, s: TxState, base: string, k: Key)
    requires Holds(pr, s, k)
    ensures Holds(pr, Opened(s, base), k)
  {
    hide GuardsAll, Remembered;
  }

  lemma SavepointHolds(pr: Promise, s: TxState, op: Op, k: Key)
    requires Holds(pr, s, k) && op.Savepoint? && !op.faults.opening
    requires Holds(pr, ExecAll(Opened(s, op.base), op.body), k)
    ensures Holds(pr, Exec(s, op).tx, k)
  {
    hide *;
    var inner, name := ExecAll(Opened(s, op.base), op.body), Name(op.base, s.counter + 1);
    SavepointEnds(s, op);
    FlushHolds(pr, inner, op.refuse, k);
    EndHolds(pr, s, inner, name, op.faults, k);
    EndHolds(pr, s, AfterSave(inner, op.refuse).tx, name, op.faults, k);
  }

  lemma {:induction false} ExecAllHolds(pr: Promise, s: TxState, ops: seq<Op>, k: Key)
    requires Holds(pr, s, k) && AllMind(pr, ops, k)
    ensures Holds(pr, ExecAll(s, ops), k)
    decreases ops, 0
  {
    hide Holds, Exec, Minds;
    if ops != [] {
      ExecHolds(pr, s, ops[0], k);
      ExecAllHolds(pr, Exec(s, ops[0]).tx, ops[1..], k);
    }
  }

  // ---- A conflict fails the flush -----------------------------------------------------------

  lemma {:induction false} OthersStay(w: World, work: seq<Entry>, n: nat, refuse: set<Ptr>, p: Ptr)
    requires n <= |work| && forall i | 0 <= i < n :: work[i].entity != p
    ensures At(RunList(w, work, n, refuse).world.mem, p) == At(w.mem, p)
  {
    if n > 0 { OthersStay(w, work, n - 1, refuse, p); }
  }

  lemma {:induction false} ConflictStops(w: World, work: seq<Entry>, n: nat, i: nat, refuse: set<Ptr>, k: Key, pr: Promise)
    requires pr.Stale? && OneEach(work) && i < n <= |work| && Safe(pr, w, k)
    requires forall e | e in work :: Guards(pr, e, k)
    requires RowKey(w.mem, work[i].entity) == k && Writes(w.mem, work[i])
    ensures !RunList(w, work, n, refuse).ok
  {
    if i < n - 1 {
      ConflictStops(w, work, n - 1, i, refuse, k, pr);
    } else {
      var r, e := RunList(w, work, i, refuse).world, work[i];
      OthersStay(w, work, i, refuse, e.entity);
      RunSafe(pr, w, work, i, refuse, k);
      assert e in work && Guards(pr, e, k) && RowKey(r.mem, e.entity) == k;
      hide RunList;
      if e.entity !in refuse { VersionedWrite(r, e, refuse); }
    }
  }

  /** A flush that would change the row of an entity whose version is not the row's fails. */
  lemma ConflictFails(t: Contents, w: World, refuse: set<Ptr>, e: Entry, k: Key, pr: Promise)
    requires pr.Stale? && Safe(pr, w, k) && GuardsAll(pr, t.entries, k)
    requires e in Work(AfterDetect(t, w.mem).entries) && RowKey(w.mem, e.entity) == k && Writes(w.mem, e)
    ensures !FlushAll(t, w, refuse).ok
  {
    var found := AfterDetect(t, w.mem).entries;
    var work := Work(found);
    FoundGuards(pr, t, w.mem, k);
    WorkOnce(found);
    var i :| 0 <= i < |work| && work[i] == e;
    hide Work, AfterDetect, Safe, Guards, Writes, RunList;
    ConflictStops(w, work, |work|, i, refuse, k, pr);
  }

  // ---- Whole transactions -------------------------------------------------------------------

  predicate HooksMind(pr: Promise, hooks: seq<Hook>, k: Key) { forall i | 0 <= i < |hooks| :: AllMind(pr, hooks[i].ops, k) }

  predicate PlanMinds(pr: Promise, plan: Plan, k: Key) { AllMind(pr, plan.body, k) && HooksMind(pr, plan.hooks, k) }

  lemma {:induction false} HooksHold(pr: Promise, s: TxState, hooks: seq<Hook>, k: Key)
    requires Holds(pr, s, k) && HooksMind(pr, hooks, k)
    ensures Holds(pr, RunHooks(s, hooks).tx, k)
    decreases |hooks|
  {
    hide Holds, ExecAll, AllMind;
    if hooks != [] {
      ExecAllHolds(pr, s, hooks[0].ops, k);
      if !hooks[0].fails { HooksHold(pr, ExecAll(s, hooks[0].ops), hooks[1..], k); }
    }
  }

  lemma FlushOnlyHolds(pr: Promise, s: TxState, refuse: set<Ptr>, k: Key)
    requires Holds(pr, s, k)
    ensures Holds(pr, FlushOnly(s, refuse), k)
  {
    FlushHolds(pr, s, refuse, k);
    hide AfterSave, Safe, GuardsAll, Kept;
  }

  lemma BeginHolds(pr: Promise, store: Store, nextKey: int, mem: Memory, k: Key)
    requires Safe(pr, Opening(store, nextKey, mem), k)
    ensures Holds(pr, Begin(store, nextKey, mem), k)
  {
  }

  /** The rows of a committed transaction are those its last flush left. */
  lemma CommittedRows(store: Store, nextKey: int, mem: Memory, plan: Plan)
    requires Transaction(store, nextKey, mem, plan).ok
    ensures var done := ExecAll(Begin(store, nextKey, mem), plan.body);
            var hooked := RunHooks(FlushOnly(done, plan.refuse), plan.hooks).tx;
            && !AfterSave(done, plan.refuse).outcome.Failed? && !AfterSave(hooked, plan.refuseLater).outcome.Failed?
            && Transaction(store, nextKey, mem, plan).store.rows == FlushOnly(hooked, plan.refuseLater).world.rows
  {
    var done := ExecAll(Begin(store, nextKey, mem), plan.body);
    var hooked := RunHooks(FlushOnly(done, plan.refuse), plan.hooks).tx;
    var last, events := FlushOnly(hooked, plan.refuseLater), done.held + NewEvents(done, plan.refuse) + NewEvents(hooked, plan.refuseLater);
    hide ExecAll, AfterSave, RunHooks, FlushOnly, NewEvents, AfterCommit, Begin;
    SinkRows(last, plan.sinks, events);
  }

  lemma {:induction false} SinkRows(s: TxState, sinks: seq<Sink>, events: seq<int>)
    ensures RunSinks(s, sinks, events).tx.world.rows == s.world.rows
    decreases |sinks|
  {
    if sinks != [] && !sinks[0].fails {
      SinkRows(s.(world := s.world.(outbox := s.world.outbox + events[..Written(sinks[0], events)])), sinks[1..], events);
    }
  }

  /** Committed or not, a transaction that minds the promise keeps it. */
  lemma TransactionKeeps(pr: Promise, store: Store, nextKey: int, mem: Memory, plan: Plan, k: Key)
    requires Safe(pr, Opening(store, nextKey, mem), k) && PlanMinds(pr, plan, k)
    ensures Kept(pr, Transaction(store, nextKey, mem, plan).store.rows, k)
  {
    hide *;
    FailedTransactionIsNothing(store, nextKey, mem, plan);
    PromiseAtBegin(pr, store, nextKey, mem, plan, k);
    if Transaction(store, nextKey, mem, plan).ok {
      var done := ExecAll(Begin(store, nextKey, mem), plan.body);
      var hooked := RunHooks(FlushOnly(done, plan.refuse), plan.hooks).tx;
      ExecAllHolds(pr, Begin(store, nextKey, mem), plan.body, k);
      FlushOnlyHolds(pr, done, plan.refuse, k);
      HooksHold(pr, FlushOnly(done, plan.refuse), plan.hooks, k);
      FlushOnlyHolds(pr, hooked, plan.refuseLater, k);
      CommittedRows(store, nextKey, mem, plan);
      HeldRows(pr, FlushOnly(hooked, plan.refuseLater), k);
    }
  }

  lemma PromiseAtBegin(pr: Promise, store: Store, nextKey: int, mem: Memory, plan: Plan, k: Key)
    requires Safe(pr, Opening(store, nextKey, mem), k) && PlanMinds(pr, plan, k)
    ensures Kept(pr, store.rows, k) && AllMind(pr, plan.body, k) && HooksMind(pr, plan.hooks, k)
    ensures Holds(pr, Begin(store, nextKey, mem), k)
  {
    BeginHolds(pr, store, nextKey, mem, k);
  }

  lemma HeldRows(pr: Promise, s: TxState, k: Key)
    requires Holds(pr, s, k)
    ensures Kept(pr, s.world.rows, k)
  {
  }

  // ---- At most one of two readers writes ----------------------------------------------------

  /** One transaction to come: the sequence and memory it begins with, and what it does. */
  datatype Txn = Txn(nextKey: int, mem: Memory, plan: Plan)

  function Ended(store: Store, t: Txn): End { Transaction(store, t.nextKey, t.mem, t.plan) }

  function StoreAfter(store: Store, txns: seq<Txn>): Store
    decreases |txns|
  {
    if txns == [] then store else StoreAfter(Ended(store, txns[0]).store, txns[1..])
  }

  /** What the transaction inserts: entities whose keys come from the sequence, past the key, or from the application. */
  ghost predicate Respects(pr: Promise, t: Txn, k: Key) {
    && PlanMinds(pr, t.plan, k)
    && if pr.keys.Generated? then t.nextKey > k.key else forall p | p in pr.keys.inserts :: RowKey(t.mem, p) != k
  }

  /** Each of the transactions respects the version of the row that was read, and inserts nothing under its key. */
  ghost predicate AllRespect(read: DbRow, txns: seq<Txn>, k: Key) {
    forall i | 0 <= i < |txns| :: exists keys :: Respects(Rising(read, keys), txns[i], k)
  }

  /** The row is as it was read, has a higher version, or is gone. */
  predicate Rose(rows: Rows, k: Key, read: DbRow) { k in rows ==> rows[k] == read || rows[k].version > read.version }

  /** However many transactions run, a row that was there is as it was, has a higher version, or is gone. */
  lemma {:induction false} VersionsRise(store: Store, read: DbRow, txns: seq<Txn>, k: Key)
    requires Rose(store.rows, k, read) && AllRespect(read, txns, k)
    ensures Rose(StoreAfter(store, txns).rows, k, read)
    decreases |txns|
  {
    if txns != [] {
      var t := txns[0];
      var keys :| Respects(Rising(read, keys), t, k);
      hide PlanMinds, Transaction;
      RisingSafe(store, Rising(read, keys), t, k);
      TransactionKeeps(Rising(read, keys), store, t.nextKey, t.mem, t.plan, k);
      VersionsRise(Ended(store, t).store, read, txns[1..], k);
    } else {
    }
  }

  lemma RisingSafe(store: Store, pr: Promise, t: Txn, k: Key)
    requires pr.Rising? && Rose(store.rows, k, pr.read) && Respects(pr, t, k)
    ensures Safe(pr, Opening(store, t.nextKey, t.mem), k)
  {
  }

  /** Memory holds the row's key at this version only. */
  ghost predicate ReadAt(mem: Memory, k: Key, version: int) {
    forall p | RowKey(mem, p) == k :: At(mem, p).version == version
  }

  /** A change of the row at this key is pending when the body ends. */
  ghost predicate ChangePending(store: Store, t: Txn, k: Key) {
    var done := ExecAll(Begin(store, t.nextKey, t.mem), t.plan.body);
    exists e | e in Work(AfterDetect(done.tracked, done.world.mem).entries) ::
      RowKey(done.world.mem, e.entity) == k && Writes(done.world.mem, e)
  }

  /**
   * No lost update. A transaction that works from a version read before other transactions changed the row leaves the row as
   * they left it, whatever its savepoints, hooks and flushes do; and if it would change the row, it fails.
   */
  lemma NoLostUpdate(store: Store, between: seq<Txn>, late: Txn, k: Key, keys: Keys)
    requires k in store.rows && AllRespect(store.rows[k], between, k)
    requires ReadAt(late.mem, k, store.rows[k].version)
    requires var row := RowAt(StoreAfter(store, between).rows, k);
             row != Some(store.rows[k]) && Respects(Stale(row, keys), late, k)
    ensures var now := StoreAfter(store, between);
            && RowAt(Ended(now, late).store.rows, k) == RowAt(now.rows, k)
            && (ChangePending(now, late, k) ==> !Ended(now, late).ok)
  {
    hide *;
    var now := StoreAfter(store, between);
    var pr := Stale(RowAt(now.rows, k), keys);
    RoseAtFirst(store, k);
    VersionsRise(store, store.rows[k], between, k);
    StaleSafe(now, store.rows[k], late, k, keys);
    MindsPlan(pr, late, k);
    TransactionKeeps(pr, now, late.nextKey, late.mem, late.plan, k);
    StaleKept(now, late, k, keys);
    PromiseAtBegin(pr, now, late.nextKey, late.mem, late.plan, k);
    ExecAllHolds(pr, Begin(now, late.nextKey, late.mem), late.plan.body, k);
    PendingFails(now, late, k, pr);
  }

  lemma RoseAtFirst(store: Store, k: Key)
    requires k in store.rows
    ensures Rose(store.rows, k, store.rows[k])
  {
  }

  lemma StaleSafe(now: Store, read: DbRow, t: Txn, k: Key, keys: Keys)
    requires Rose(now.rows, k, read) && RowAt(now.rows, k) != Some(read) && ReadAt(t.mem, k, read.version)
    requires Respects(Stale(RowAt(now.rows, k), keys), t, k)
    ensures Safe(Stale(RowAt(now.rows, k), keys), Opening(now, t.nextKey, t.mem), k)
  {
  }

  lemma MindsPlan(pr: Promise, t: Txn, k: Key)
    requires Respects(pr, t, k)
    ensures PlanMinds(pr, t.plan, k)
  {
  }

  lemma StaleKept(now: Store, t: Txn, k: Key, keys: Keys)
    requires Kept(Stale(RowAt(now.rows, k), keys), Transaction(now, t.nextKey, t.mem, t.plan).store.rows, k)
    ensures RowAt(Ended(now, t).store.rows, k) == RowAt(now.rows, k)
  {
    hide Transaction;
  }

  lemma PendingFails(store: Store, t: Txn, k: Key, pr: Promise)
    requires pr.Stale? && Holds(pr, ExecAll(Begin(store, t.nextKey, t.mem), t.plan.body), k)
    ensures ChangePending(store, t, k) ==> !Ended(store, t).ok
  {
    var done := ExecAll(Begin(store, t.nextKey, t.mem), t.plan.body);
    hide ExecAll, Transaction, Work, AfterDetect, FlushAll, Safe, GuardsAll, RowKey, Writes;
    if ChangePending(store, t, k) {
      var e :| e in Work(AfterDetect(done.tracked, done.world.mem).entries) &&
               RowKey(done.world.mem, e.entity) == k && Writes(done.world.mem, e);
      ConflictFails(done.tracked, done.world, t.plan.refuse, e, k, pr);
      FailedFlushFails(store, t.nextKey, t.mem, t.plan);
    }
  }

  lemma FailedFlushFails(store: Store, nextKey: int, mem: Memory, plan: Plan)
    requires var done := ExecAll(Begin(store, nextKey, mem), plan.body); !FlushAll(done.tracked, done.world, plan.refuse).ok
    ensures !Transaction(store, nextKey, mem, plan).ok
  {
    hide ExecAll, FlushAll, RunHooks, Begin;
  }

  // ---- A version in memory is not taken back ------------------------------------------------

  /** The row is there, and no other entity in memory has its key. */
  ghost predicate Alone(w: World, k: Key, p: Ptr) { k in w.rows && forall q | RowKey(w.mem, q) == k :: q == p }

  lemma OthersLeaveRow(w: World, e: Entry, refuse: set<Ptr>, k: Key, p: Ptr)
    requires Alone(w, k, p) && e.entity != p && Statement(w, e, refuse).Some?
    ensures var next := Statement(w, e, refuse).value;
            Alone(next, k, p) && next.rows[k] == w.rows[k] && At(next.mem, p) == At(w.mem, p)
  {
    var next := Statement(w, e, refuse).value;
    forall q | RowKey(next.mem, q) == k ensures q == p {
      assert RowKey(next.mem, q) == RowKey(w.mem, q) || RowKey(next.mem, q) !in w.rows;
    }
  }

  lemma {:induction false} OthersRun(w: World, work: seq<Entry>, n: nat, refuse: set<Ptr>, k: Key, p: Ptr)
    requires n <= |work| && Alone(w, k, p) && forall i | 0 <= i < n :: work[i].entity != p
    ensures var r := RunList(w, work, n, refuse).world;
            Alone(r, k, p) && r.rows[k] == w.rows[k] && At(r.mem, p) == At(w.mem, p)
  {
    hide Alone, Statement;
    if n > 0 {
      OthersRun(w, work, n - 1, refuse, k, p);
      var r := RunList(w, work, n - 1, refuse);
      if r.ok && Statement(r.world, work[n - 1], refuse).Some? { OthersLeaveRow(r.world, work[n - 1], refuse, k, p); }
    }
  }

  /** After a list that updated the entity, memory is one version past the row it started from. */
  lemma {:induction false} RunBumps(w: World, work: seq<Entry>, n: nat, i: nat, refuse: set<Ptr>, k: Key)
    requires OneEach(work) && i < n <= |work| && RunList(w, work, n, refuse).ok
    requires work[i].state.Modified? && work[i].entity.meta.versioned && Writes(w.mem, work[i])
    requires k == RowKey(w.mem, work[i].entity) && Alone(w, k, work[i].entity)
    ensures var r := RunList(w, work, n, refuse).world;
            && Alone(r, k, work[i].entity) && RowKey(r.mem, work[i].entity) == k
            && At(r.mem, work[i].entity).version == w.rows[k].version + 1
  {
    var p, r := work[i].entity, RunList(w, work, n - 1, refuse);
    if i < n - 1 {
      RunBumps(w, work, n - 1, i, refuse, k);
      hide Alone, Writes;
      OthersLeaveRow(r.world, work[n - 1], refuse, k, p);
    } else {
      OthersRun(w, work, i, refuse, k, p);
      RunKeepsValues(w, work, i, refuse);
      VersionedWrite(r.world, work[i], refuse);
      BumpedAlone(r.world, Statement(r.world, work[i], refuse).value, work[i], k);
    }
  }

  lemma BumpedAlone(w: World, next: World, e: Entry, k: Key)
    requires k == RowKey(w.mem, e.entity) && Alone(w, k, e.entity) && OnlyAt(w, next, k, e.entity) && Bumped(w, next, e)
    ensures Alone(next, k, e.entity) && RowKey(next.mem, e.entity) == k && At(next.mem, e.entity).version == w.rows[k].version + 1
  {
    forall q | RowKey(next.mem, q) == k ensures q == e.entity {
      assert RowKey(next.mem, q) == RowKey(w.mem, q);
    }
  }

  /** The records of a tracker, before a flush of them or after one that was undone. */
  ghost predicate Redo(t: Contents, w: World, e: Entry, k: Key) {
    && e in Work(AfterDetect(t, w.mem).entries) && e.state.Modified? && e.entity.meta.versioned && Writes(w.mem, e)
    && k == RowKey(w.mem, e.entity) && Alone(w, k, e.entity)
    && OneEach(t.entries) && forall x | x in t.entries && x.entity.meta.table == k.table :: x.entity.meta.versioned
  }

  /**
   * A versioned update that was sent and then undone in the database cannot be sent again: memory stays one version ahead,
   * and the next flush of the same record over the old row is a conflict.
   */
  lemma UndoneUpdateConflicts(t: Contents, w: World, refuse: set<Ptr>, e: Entry, k: Key, back: Contents, later: World, again: set<Ptr>)
    requires Redo(t, w, e, k) && FlushAll(t, w, refuse).ok
    requires later.mem == FlushAll(t, w, refuse).world.mem && later.rows == w.rows
    requires OneEach(back.entries) && (forall x | x in back.entries && x.entity.meta.table == k.table :: x.entity.meta.versioned)
    requires e in Work(AfterDetect(back, later.mem).entries)
    ensures !FlushAll(back, later, again).ok
  {
    var work := Work(AfterDetect(t, w.mem).entries);
    var pr := Stale(Some(w.rows[k]), Generated);
    EntriesGuardedBy(pr, t.entries, k);
    EntriesGuardedBy(pr, back.entries, k);
    FoundGuards(pr, t, w.mem, k);
    WorkOnce(AfterDetect(t, w.mem).entries);
    var i :| 0 <= i < |work| && work[i] == e;
    hide Work, AfterDetect, RunList, Alone, Writes;
    RunBumps(w, work, |work|, i, refuse, k);
    RunKeepsValues(w, work, |work|, refuse);
    AloneIsStale(pr, w, later, e, k);
    ConflictFails(back, later, again, e, k, pr);
  }

  lemma EntriesGuardedBy(pr: Promise, entries: seq<Entry>, k: Key)
    requires pr.Stale? && pr.row.Some? && OneEach(entries)
    requires forall x | x in entries && x.entity.meta.table == k.table :: x.entity.meta.versioned
    ensures GuardsAll(pr, entries, k)
  {
  }

  /** Memory one version past the row: nothing there is current, and the record still has something to write. */
  lemma AloneIsStale(pr: Promise, w: World, later: World, e: Entry, k: Key)
    requires k in w.rows && pr == Stale(Some(w.rows[k]), Generated) && later.rows == w.rows
    requires e.state.Modified? && Writes(w.mem, e) && KeepsValues(w.mem, later.mem) && Alone(later.(rows := w.rows), k, e.entity)
    requires At(later.mem, e.entity).version == w.rows[k].version + 1
    ensures Safe(pr, later, k) && Writes(later.mem, e)
  {
  }

  lemma SameFound(entries: seq<Entry>, before: Contents, after: Contents, mem: Memory, later: Memory)
    requires KeepsValues(mem, later) && before.entries == after.entries == entries
    ensures AfterDetect(after, later).entries == AfterDetect(before, mem).entries
  {
    assert forall i | 0 <= i < |entries| :: Detected(later, entries[i]) == Detected(mem, entries[i]);
  }

  /** An update flushed inside a savepoint that is rewound makes the next flush of the transaction fail. */
  lemma RewoundUpdateConflicts(s: TxState, base: string, refuse: set<Ptr>, e: Entry, k: Key, again: set<Ptr>)
    requires Numbered(s) && Redo(s.tracked, s.world, e, k) && FlushAll(s.tracked, s.world, refuse).ok
    ensures var r := Exec(s, Savepoint(base, [SaveChanges(refuse)], true, {}, Faults(false, false, false)));
            r.outcome.Rewound? && AfterSave(r.tx, again).outcome.Failed?
  {
    var op := Savepoint(base, [SaveChanges(refuse)], true, {}, Faults(false, false, false));
    var r := Exec(s, op);
    RewoundAsBefore(s, op);
    var first := FlushAll(s.tracked, s.world, refuse);
    RewoundMemory(s, op);
    FlushedValues(s.tracked, s.world, refuse);
    SameFound(s.tracked.entries, s.tracked, r.tx.tracked, s.world.mem, r.tx.world.mem);
    hide Exec, FlushAll, Work, AfterDetect, Alone, Writes, KeepsValues;
    UndoneUpdateConflicts(s.tracked, s.world, refuse, e, k, r.tx.tracked, r.tx.world, again);
  }

  lemma FlushedValues(t: Contents, w: World, refuse: set<Ptr>)
    ensures KeepsValues(w.mem, FlushAll(t, w, refuse).world.mem)
  {
    var work := Work(AfterDetect(t, w.mem).entries);
    RunKeepsValues(w, work, |work|, refuse);
  }

  lemma RewoundMemory(s: TxState, op: Op)
    requires op.Savepoint? && op.fails && op.faults == Faults(false, false, false)
    requires |op.body| == 1 && op.body[0].SaveChanges?
    ensures Exec(s, op).tx.world.mem == FlushAll(s.tracked, s.world, op.body[0].refuse).world.mem
  {
    var start := Opened(s, op.base);
    assert ExecAll(start, op.body) == ExecAll(Exec(start, op.body[0]).tx, op.body[1..]);
    assert op.body[1..] == [];
    hide FlushAll, Found, AfterRestore;
  }

  /** Clearing the flushed marks after a failed attempt is not enough to send a versioned update again. */
  lemma ResetUpdateConflicts(t: Contents, w: World, refuse: set<Ptr>, e: Entry, k: Key, again: set<Ptr>)
    requires Redo(t, w, e, k) && FlushAll(t, w, refuse).ok
    ensures var first := FlushAll(t, w, refuse);
            !FlushAll(first.tracked.(entries := Unflushed(first.tracked.entries)),
                      first.world.(rows := w.rows, outbox := w.outbox), again).ok
  {
    var first := FlushAll(t, w, refuse);
    var back := first.tracked.(entries := Unflushed(first.tracked.entries));
    FlushedValues(t, w, refuse);
    FoundAgain(t, w.mem, first.world.mem, back, e, k);
    hide FlushAll, Work, AfterDetect, Alone, Writes, KeepsValues, Unflushed, OneEach;
    UndoneUpdateConflicts(t, w, refuse, e, k, back, first.world.(rows := w.rows, outbox := w.outbox), again);
  }

  lemma FoundAgain(t: Contents, mem: Memory, later: Memory, back: Contents, e: Entry, k: Key)
    requires OneEach(t.entries) && e in Work(AfterDetect(t, mem).entries) && e.state.Modified?
    requires forall x | x in t.entries && x.entity.meta.table == k.table :: x.entity.meta.versioned
    requires back.entries == Unflushed(AllMarked(AfterDetect(t, mem).entries))
    ensures OneEach(back.entries) && e in Work(AfterDetect(back, later).entries)
    ensures forall x | x in back.entries && x.entity.meta.table == k.table :: x.entity.meta.versioned
  {
    var found, now := AfterDetect(t, mem).entries, AfterDetect(back, later).entries;
    hide *;
    Redone(t, mem, later, back);
    SameModels(t.entries, back.entries, k);
    SameModels(t.entries, found, k);
    SameModels(t.entries, now, k);
    WorkOnce(found);
    StillThere(found, now, e);
    WorkOnce(now);
  }

  lemma StillThere(found: seq<Entry>, now: seq<Entry>, e: Entry)
    requires |found| == |now| && e in found && e.state.Modified? && !e.flushed
    requires forall i | 0 <= i < |now| :: found[i].state.Modified? && !found[i].flushed ==> now[i] == found[i]
    ensures e in now
  {
    var i :| 0 <= i < |found| && found[i] == e;
    assert now[i] == e;
  }

  /** Position by position, the undone records are the found ones without their marks. */
  lemma Redone(t: Contents, mem: Memory, later: Memory, back: Contents)
    requires back.entries == Unflushed(AllMarked(AfterDetect(t, mem).entries))
    ensures var found, now := AfterDetect(t, mem).entries, AfterDetect(back, later).entries;
            && |t.entries| == |found| == |back.entries| == |now|
            && (forall i | 0 <= i < |now| ::
                  now[i].entity == back.entries[i].entity == found[i].entity == t.entries[i].entity
                  && (found[i].state.Modified? && !found[i].flushed ==> now[i] == found[i]))
  {
  }

  lemma SameModels(a: seq<Entry>, b: seq<Entry>, k: Key)
    requires OneEach(a) && |a| == |b| && forall i | 0 <= i < |a| :: a[i].entity == b[i].entity
    requires forall x | x in a && x.entity.meta.table == k.table :: x.entity.meta.versioned
    ensures OneEach(b)
    ensures forall x | x in b && x.entity.meta.table == k.table :: x.entity.meta.versioned
  {
    forall x | x in b && x.entity.meta.table == k.table ensures x.entity.meta.versioned {
      var j :| 0 <= j < |b| && b[j] == x;
      assert a[j] in a;
    }
  }

  // ---- A key inserted again -----------------------------------------------------------------

  /** A transaction without hooks and sinks whose flush and commit succeed leaves what its one flush leaves. */
  lemma PlainEnd(store: Store, t: Txn)
    requires t.plan == Plan(t.plan.body, false, {}, [], {}, [], false)
    requires AfterSave(ExecAll(Begin(store, t.nextKey, t.mem), t.plan.body), {}).outcome.Done?
    ensures Ended(store, t).ok
    ensures Ended(store, t).store.rows == AfterSave(ExecAll(Begin(store, t.nextKey, t.mem), t.plan.body), {}).tx.world.rows
  {
    var done := ExecAll(Begin(store, t.nextKey, t.mem), t.plan.body);
    SecondFlushIsEmpty(done.tracked, done.world, {}, {});
    hide ExecAll, FlushAll, Begin;
    var seen := FlushOnly(done, {});
    assert RunHooks(seen, []) == HooksRun(seen, true);
    assert FlushAll(seen.tracked, seen.world, {}) == Flushed(seen.tracked, seen.world, [], true);
    assert RunSinks(FlushOnly(seen, {}), [], done.held + NewEvents(done, {}) + []).tx == FlushOnly(seen, {});
  }

  /** The flush of a tracker with one record, which is pending. */
  lemma OnePending(t: Contents, w: World, e: Entry)
    requires t.entries == [e] && !e.flushed && (e.state.Added? || e.state.Modified? || e.state.Deleted?)
    requires Statement(w, e, {}).Some?
    ensures FlushAll(t, w, {}).ok && FlushAll(t, w, {}).world == Statement(w, e, {}).value
    ensures FlushAll(t, w, {}).tracked == t.(entries := [e.(flushed := true)])
  {
    var found := AfterDetect(t, w.mem).entries;
    assert found == [e];
    PendingOne(e, EntityState.Added);
    PendingOne(e, Modified);
    PendingOne(e, Deleted);
    assert Work(found) == [e];
    assert AllMarked(found) == [e.(flushed := true)];
    hide Pending, Statement;
    assert RunList(w, [e], 0, {}) == Ran(w, true);
    assert RunList(w, [e], 1, {}) == Ran(Statement(w, e, {}).value, true);
  }

  lemma PendingOne(e: Entry, state: EntityState)
    requires !e.flushed
    ensures PendingIn([e], state) == if e.state == state then [e] else []
  {
    assert Pending([e], state, 0) == [];
  }

  lemma FourOps(s: TxState, ops: seq<Op>)
    requires |ops| == 4
    ensures ExecAll(s, ops) == Exec(Exec(Exec(Exec(s, ops[0]).tx, ops[1]).tx, ops[2]).tx, ops[3]).tx
  {
    hide Exec;
    var a := Exec(s, ops[0]).tx;
    var b := Exec(a, ops[1]).tx;
    var c := Exec(b, ops[2]).tx;
    var d := Exec(c, ops[3]).tx;
    assert ops[1..][1..] == ops[2..] && ops[2..][1..] == ops[3..] && ops[3..][1..] == [];
    assert ExecAll(d, []) == d;
    assert ExecAll(c, ops[3..]) == d;
    assert ExecAll(b, ops[2..]) == d;
    assert ExecAll(a, ops[1..]) == d;
  }

  /** An entity of a versioned model whose keys the application assigns. */
  const DOCUMENT := Ptr(0, Meta("document", true, true, false, true))

  const DOCUMENT_KEY := Key("document", 7)

  function DocumentStore(row: DbRow): Store { Store(map[DOCUMENT_KEY := row], [], []) }

  function Holding(value: int): Memory { map[DOCUMENT := Entity(7, map["title" := value], 1, [])] }

  function Simply(body: seq<Op>): Plan { Plan(body, false, {}, [], {}, [], false) }

  /** Deletes the document and adds it again, with another title. */
  const REPLACING := Txn(1, Holding(5), Simply([AttachAs(DOCUMENT, Deleted), SaveChanges({}), DetachIt(DOCUMENT), Add(DOCUMENT, 0)]))

  /** Stores the document as it was read at version 1, with a title of its own. */
  const OVERWRITING := Txn(1, Holding(9), Simply([AttachAs(DOCUMENT, Modified)]))

  function Row(value: int, version: int): DbRow { DbRow(map["title" := value], version, false) }

  lemma ReplacingDeletes(s: TxState)
    requires s == Begin(DocumentStore(Row(1, 1)), 1, Holding(5))
    ensures var attached := Simple(s, AttachAs(DOCUMENT, Deleted));
            var saved := AfterSave(attached, {}).tx;
            && saved.world == World(map[], 1, Holding(5), [])
            && saved.tracked == Contents([NewEntry(DOCUMENT, Deleted, None, false, false).(flushed := true)], map[])
  {
    var e := NewEntry(DOCUMENT, Deleted, None, false, false);
    var attached := Simple(s, AttachAs(DOCUMENT, Deleted));
    assert attached.tracked == Contents([e], map[]) by { assert [] + [e] == [e]; }
    assert RowKey(s.world.mem, DOCUMENT) == DOCUMENT_KEY;
    assert s.world.rows - {DOCUMENT_KEY} == map[];
    OnePending(attached.tracked, attached.world, e);
  }

  lemma ReplacingAdds(s: TxState)
    requires s.world == World(map[], 1, Holding(5), [])
    requires s.tracked == Contents([NewEntry(DOCUMENT, Deleted, None, false, false).(flushed := true)], map[])
    ensures var done := Simple(Simple(s, DetachIt(DOCUMENT)), Add(DOCUMENT, 0));
            AfterSave(done, {}).outcome.Done? && AfterSave(done, {}).tx.world.rows == map[DOCUMENT_KEY := Row(5, 1)]
  {
    var e := NewEntry(DOCUMENT, EntityState.Added, None, false, false);
    var detached := Simple(s, DetachIt(DOCUMENT));
    assert s.tracked.entries[0].entity == DOCUMENT;
    assert detached.tracked.entries == [] by { assert Without(s.tracked.entries, DOCUMENT, 0) == []; }
    var done := Simple(detached, Add(DOCUMENT, 0));
    assert done.tracked.entries == [e] by { assert [] + [e] == [e]; }
    assert RowKey(s.world.mem, DOCUMENT) == DOCUMENT_KEY;
    OnePending(done.tracked, done.world, e);
  }

  lemma Replaced()
    ensures Ended(DocumentStore(Row(1, 1)), REPLACING).ok
    ensures Ended(DocumentStore(Row(1, 1)), REPLACING).store.rows == map[DOCUMENT_KEY := Row(5, 1)]
  {
    var start, body := Begin(DocumentStore(Row(1, 1)), 1, Holding(5)), REPLACING.plan.body;
    ReplacingDeletes(start);
    var attached := Simple(start, AttachAs(DOCUMENT, Deleted));
    var saved := AfterSave(attached, {}).tx;
    ReplacingAdds(saved);
    ReplacingRuns(start, body);
    hide ExecAll, AfterSave, Begin, Simple;
    PlainEnd(DocumentStore(Row(1, 1)), REPLACING);
  }

  lemma ReplacingRuns(s: TxState, body: seq<Op>)
    requires body == REPLACING.plan.body
    ensures ExecAll(s, body) ==
            Simple(Simple(AfterSave(Simple(s, AttachAs(DOCUMENT, Deleted)), {}).tx, DetachIt(DOCUMENT)), Add(DOCUMENT, 0))
  {
    FourOps(s, body);
    hide Simple, AfterSave, ExecAll;
  }

  lemma OverwritingUpdates(w: World, e: Entry)
    requires w.mem == Holding(9) && w.rows == map[DOCUMENT_KEY := Row(5, 1)]
    requires e == NewEntry(DOCUMENT, Modified, None, true, false)
    ensures Statement(w, e, {}).Some? && Statement(w, e, {}).value.rows == map[DOCUMENT_KEY := Row(9, 2)]
  {
    assert RowKey(w.mem, DOCUMENT) == DOCUMENT_KEY && At(w.mem, DOCUMENT) == Entity(7, map["title" := 9], 1, []);
    assert "title" in Changes(w.mem, e);
    VersionedWrite(w, e, {});
    var next := Statement(w, e, {}).value;
    assert Row(5, 1).fields + Changes(w.mem, e) == Row(9, 2).fields;
    assert next.rows[DOCUMENT_KEY] == Row(9, 2);
    assert next.rows == map[DOCUMENT_KEY := Row(9, 2)];
  }

  lemma Overwritten(store: Store)
    requires store.rows == map[DOCUMENT_KEY := Row(5, 1)]
    ensures Ended(store, OVERWRITING).ok && Ended(store, OVERWRITING).store.rows == map[DOCUMENT_KEY := Row(9, 2)]
  {
    var start := Begin(store, 1, Holding(9));
    var e := NewEntry(DOCUMENT, Modified, None, true, false);
    var done := Simple(start, AttachAs(DOCUMENT, Modified));
    assert done.tracked == Contents([e], map[]) by { assert [] + [e] == [e]; }
    assert RowKey(start.world.mem, DOCUMENT) == DOCUMENT_KEY;
    OverwritingUpdates(done.world, e);
    OnePending(done.tracked, done.world, e);
    hide Simple, FlushAll, Begin;
    assert ExecAll(start, OVERWRITING.plan.body) == done by {
      assert OVERWRITING.plan.body[1..] == [];
      assert ExecAll(done, []) == done;
    }
    PlainEnd(store, OVERWRITING);
  }

  /**
   * A row deleted and inserted again under its key starts at version 1 once more: a transaction that read the first row
   * then overwrites the second.
   */
  lemma ReplacedRowIsOverwritten()
    ensures var store := DocumentStore(Row(1, 1));
            var now := Ended(store, REPLACING);
            var end := Ended(now.store, OVERWRITING);
            && ReadAt(OVERWRITING.mem, DOCUMENT_KEY, 1) && now.ok && end.ok
            && RowAt(now.store.rows, DOCUMENT_KEY) == Some(Row(5, 1)) && RowAt(end.store.rows, DOCUMENT_KEY) == Some(Row(9, 2))
  {
    hide Ended;
    Replaced();
    Overwritten(Ended(DocumentStore(Row(1, 1)), REPLACING).store);
  }
}
