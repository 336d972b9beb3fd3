/** One tracked instance for each row. */
module IdentityMap {
  // The identity map over whole programs: which loads give the tracked instance of a row, and which track the row twice;
  // and what a commit leaves tracked.

  import opened Options
  import opened OrderedSeqs
  import opened Tracking
  import opened Flush
  import opened Savepoints

  /** The key an entity has now; key 0 names no row. */
  function NamedBy(mem: Memory, p: Ptr): Key { Key(p.meta.table, At(mem, p).key) }

  /** Two entities stand for one row. */
  predicate Twins(mem: Memory, p: Ptr, q: Ptr) { p != q && NamedBy(mem, p) == NamedBy(mem, q) && At(mem, p).key != 0 }

  ghost predicate NoTwins(entries: seq<Entry>, mem: Memory) {
    forall e, f | e in entries && f in entries :: !Twins(mem, e.entity, f.entity)
  }

  ghost predicate InMemory(entries: seq<Entry>, mem: Memory) { forall e | e in entries :: e.entity in mem }

  /** The slot of the entity's key is its own. */
  predicate Slotted(t: Contents, mem: Memory, p: Ptr) { NamedBy(mem, p) in t.byPK && t.byPK[NamedBy(mem, p)].entity == p }

  /** Every tracked entity with a key is found by it, unless this transaction generated the key: `first` is the first it may have. */
  ghost predicate Resolves(t: Contents, mem: Memory, first: int) {
    forall e | e in t.entries && At(mem, e.entity).key != 0 ::
      Slotted(t, mem, e.entity) || (!e.entity.meta.appAssigned && At(mem, e.entity).key >= first)
  }

  /** A table's models all get their keys alike, and generated keys are those the sequence has given out. */
  ghost predicate Issued(w: World) {
    && w.nextKey > 0
    && (forall p | p in w.mem && !p.meta.appAssigned :: At(w.mem, p).key < w.nextKey)
    && (forall p, q | p in w.mem && q in w.mem && p.meta.table == q.meta.table :: p.meta.appAssigned == q.meta.appAssigned)
  }

  ghost predicate Mapped(s: TxState, first: int) {
    && Live(s) && Issued(s.world) && first <= s.world.nextKey
    && InMemory(s.tracked.entries, s.world.mem) && NoTwins(s.tracked.entries, s.world.mem)
    && Resolves(s.tracked, s.world.mem, first)
  }

  // ---- Loading a row ------------------------------------------------------------------------

  /**
   * A loaded row gives the tracked entity of its key and changes nothing; a row with no slot becomes a second instance exactly
   * when a tracked entity has its key all the same.
   */
  lemma LoadResolves(t: Contents, mem: Memory, q: Ptr, snapshot: Option<Fields>)
    requires OneEach(t.entries) && SlotsLive(t, mem) && !Has(t.entries, q) && At(mem, q).key != 0
    ensures var c, now := Canonical(t, mem, q), AfterTrack(t, mem, q, snapshot);
            && Has(now.entries, c) && NamedBy(mem, c) == NamedBy(mem, q) && Slotted(now, mem, c)
            && (NamedBy(mem, q) in t.byPK ==> now == t && c != q)
            && (NamedBy(mem, q) !in t.byPK ==> now.entries == t.entries + [NewEntry(q, Unchanged, snapshot, false, true)] && c == q)
    ensures (exists e | e in AfterTrack(t, mem, q, snapshot).entries :: Twins(mem, e.entity, q) && Has(AfterTrack(t, mem, q, snapshot).entries, q)) <==>
            NamedBy(mem, q) !in t.byPK && exists e | e in t.entries :: Twins(mem, e.entity, q)
  {
    var now, key := AfterTrack(t, mem, q, snapshot), NamedBy(mem, q);
    assert KeyOf(mem, q) == Some(key);
    if key !in t.byPK {
      assert now.entries[|t.entries|].entity == q;
      forall e | e in t.entries ensures e in now.entries { }
    } else {
      assert KeyOf(mem, t.byPK[key].entity) == Some(key);
    }
  }

  /** Where the map resolves, loading the row of a tracked entity again gives that entity, whatever was tracked since. */
  lemma LoadedAgainIsSame(s: TxState, first: int, e: Entry, q: Ptr, row: Entity)
    requires Mapped(s, first) && e in s.tracked.entries && q !in s.world.mem
    requires row.key != 0 && Key(q.meta.table, row.key) == NamedBy(s.world.mem, e.entity)
    requires e.entity.meta.appAssigned || row.key < first
    ensures Canonical(s.tracked, s.world.mem[q := row], q) == e.entity
    ensures Simple(s, Load(q, row)).tracked == s.tracked && At(Simple(s, Load(q, row)).world.mem, e.entity) == At(s.world.mem, e.entity)
  {
    var mem := s.world.mem[q := row];
    assert e.entity in s.world.mem && e.entity != q;
    if Has(s.tracked.entries, q) {
      NotThere(s.tracked.entries, s.world.mem, q);
    }
    assert Slotted(s.tracked, s.world.mem, e.entity);
    assert KeyOf(mem, q) == Some(NamedBy(s.world.mem, e.entity));
  }

  lemma NotThere(entries: seq<Entry>, mem: Memory, q: Ptr)
    requires InMemory(entries, mem) && q !in mem
    ensures !Has(entries, q)
  {
    forall i | 0 <= i < |entries| ensures entries[i].entity != q { assert entries[i] in entries; }
  }

  /** An attached entity has no slot: the row loaded afterwards is tracked beside it. */
  lemma AttachedIsLoadedTwice(s: TxState, p: Ptr, state: EntityState, q: Ptr, row: Entity)
    requires !Has(s.tracked.entries, p) && !Has(s.tracked.entries, q) && p != q && At(s.world.mem, p).key != 0
    requires Key(q.meta.table, row.key) == NamedBy(s.world.mem, p) && NamedBy(s.world.mem, p) !in s.tracked.byPK
    ensures var now := Simple(Simple(s, AttachAs(p, state)), Load(q, row));
            Has(now.tracked.entries, p) && Has(now.tracked.entries, q) && Twins(now.world.mem, p, q)
  {
    var attached := Simple(s, AttachAs(p, state));
    var now := Simple(attached, Load(q, row));
    var e := attached.tracked.entries[|s.tracked.entries|];
    assert attached.tracked.entries == s.tracked.entries + [e] && e.entity == p && attached.tracked.byPK == s.tracked.byPK;
    HasMore(s.tracked.entries, e, q);
    HasMore(s.tracked.entries, e, p);
    assert KeyOf(now.world.mem, q) == Some(NamedBy(s.world.mem, p));
    var f := now.tracked.entries[|attached.tracked.entries|];
    assert now.tracked.entries == attached.tracked.entries + [f] && f.entity == q;
    HasMore(attached.tracked.entries, f, p);
    HasMore(attached.tracked.entries, f, q);
  }

  /** The row of an entity that this transaction inserted is loaded into a second instance: the slot comes with the commit. */
  lemma InsertedIsLoadedTwice(s: TxState, p: Ptr, q: Ptr, row: Entity)
    requires s.tracked == Contents([Staged(p)], map[]) && p.meta == ORDER == q.meta && p != q
    requires row.key == s.world.nextKey != 0 && Key("order", s.world.nextKey) !in s.world.rows
    ensures var saved := AfterSave(s, {}); var now := Simple(saved.tx, Load(q, row));
            && saved.outcome.Done? && Has(now.tracked.entries, p) && Has(now.tracked.entries, q) && Twins(now.world.mem, p, q)
  {
    hide *;
    InsertedEntity(s, p);
    LoadedBeside(AfterSave(s, {}).tx, p, q, row);
  }

  lemma InsertedEntity(s: TxState, p: Ptr)
    requires s.tracked == Contents([Staged(p)], map[]) && p.meta == ORDER && Key("order", s.world.nextKey) !in s.world.rows
    ensures var saved := AfterSave(s, {});
            && saved.outcome.Done? && saved.tx.tracked == Contents([Staged(p).(flushed := true)], map[])
            && At(saved.tx.world.mem, p).key == s.world.nextKey
  {
    assert [] + [Staged(p)] == [Staged(p)];
    OneInsert(s, [], p);
    hide AfterSave;
    assert [] + [Staged(p).(flushed := true)] == [Staged(p).(flushed := true)];
  }

  lemma LoadedBeside(s: TxState, p: Ptr, q: Ptr, row: Entity)
    requires s.tracked == Contents([Staged(p).(flushed := true)], map[]) && p.meta == q.meta && p != q && row.key == At(s.world.mem, p).key != 0
    ensures var now := Simple(s, Load(q, row)); Has(now.tracked.entries, p) && Has(now.tracked.entries, q) && Twins(now.world.mem, p, q)
  {
    var now, e := Simple(s, Load(q, row)), Staged(p).(flushed := true);
    assert KeyOf(s.world.mem[q := row], q) == Some(Key(q.meta.table, row.key));
    var f := now.tracked.entries[1];
    assert now.tracked.entries == [e] + [f] && f.entity == q;
    HasMore([e], f, p);
    HasMore([e], f, q);
    assert [e][0].entity == p;
  }

  lemma HasMore(entries: seq<Entry>, e: Entry, p: Ptr)
    ensures Has(entries + [e], p) <==> Has(entries, p) || e.entity == p
  {
    var more := entries + [e];
    if i :| 0 <= i < |entries| && entries[i].entity == p { assert more[i].entity == p; }
    if e.entity == p { assert more[|entries|].entity == p; }
  }

  // ---- Memory -------------------------------------------------------------------------------

  /** No entity leaves memory, and two that were not the same row do not become one. */
  ghost predicate NoNewTwins(before: Memory, after: Memory) {
    && before.Keys <= after.Keys
    && forall p, q | p in before && q in before && Twins(after, p, q) :: Twins(before, p, q)
  }

  /** A statement moves no key but that of the entity it inserts, to the next one of the sequence. */
  lemma StatementKeys(w: World, e: Entry, refuse: set<Ptr>)
    requires e.entity in w.mem && Statement(w, e, refuse).Some?
    ensures var next := Statement(w, e, refuse).value;
            && next.mem.Keys == w.mem.Keys && next.nextKey >= w.nextKey
            && (forall p | p != e.entity :: At(next.mem, p) == At(w.mem, p))
            && (At(next.mem, e.entity).key == At(w.mem, e.entity).key
                || (!e.entity.meta.appAssigned && At(next.mem, e.entity).key == w.nextKey == next.nextKey - 1))
  {
  }

  lemma StatementMoves(w: World, e: Entry, refuse: set<Ptr>)
    requires Issued(w) && e.entity in w.mem && Statement(w, e, refuse).Some?
    ensures var next := Statement(w, e, refuse).value;
            && Issued(next) && next.nextKey >= w.nextKey && NoNewTwins(w.mem, next.mem) && next.mem.Keys == w.mem.Keys
            && forall p | p in w.mem && At(next.mem, p).key != At(w.mem, p).key :: !p.meta.appAssigned && At(next.mem, p).key >= w.nextKey
  {
    StatementKeys(w, e, refuse);
    hide Statement;
    var next := Statement(w, e, refuse).value;
    forall p, q | p in w.mem && q in w.mem && Twins(next.mem, p, q) ensures Twins(w.mem, p, q) {
      assert p.meta.appAssigned == q.meta.appAssigned;
    }
  }

  lemma {:induction false} RunMoves(w: World, work: seq<Entry>, n: nat, refuse: set<Ptr>)
    requires Issued(w) && n <= |work| && InMemory(work, w.mem)
    ensures var next := RunList(w, work, n, refuse).world;
            && Issued(next) && next.nextKey >= w.nextKey && NoNewTwins(w.mem, next.mem) && next.mem.Keys == w.mem.Keys
            && forall p | p in w.mem && At(next.mem, p).key != At(w.mem, p).key :: !p.meta.appAssigned && At(next.mem, p).key >= w.nextKey
  {
    hide Issued, Statement;
    if n > 0 {
      RunMoves(w, work, n - 1, refuse);
      var r := RunList(w, work, n - 1, refuse);
      assert work[n - 1] in work;
      if r.ok && Statement(r.world, work[n - 1], refuse).Some? {
        StatementMoves(r.world, work[n - 1], refuse);
        MovesTwice(w.mem, r.world.mem, Statement(r.world, work[n - 1], refuse).value.mem);
      }
    }
  }

  lemma MovesTwice(a: Memory, b: Memory, c: Memory)
    requires NoNewTwins(a, b) && NoNewTwins(b, c)
    ensures NoNewTwins(a, c)
  {
  }

  // ---- Programs -----------------------------------------------------------------------------

  /** No other entity in memory has this key of the table, and all of the table get their keys alike. */
  ghost predicate Free(mem: Memory, p: Ptr, key: int) {
    && (forall q | q in mem && q != p && q.meta.table == p.meta.table :: At(mem, q).key != key && q.meta.appAssigned == p.meta.appAssigned)
    && key != 0
  }

  ghost predicate Alike(mem: Memory, p: Ptr) {
    forall q | q in mem && q.meta.table == p.meta.table :: q.meta.appAssigned == p.meta.appAssigned
  }

  /**
   * What keeps one instance for each row: rows come into new instances, and not those whose keys this transaction generated; an
   * entity is added under a key nothing in memory has; only tracked entities are attached.
   */
  ghost predicate Tidy(s: TxState, op: Op, first: int)
    decreases op, 1
  {
    var entries, mem := s.tracked.entries, s.world.mem;
    match op
    case Load(p, row) =>
      Has(entries, p) || (p !in mem && row.key != 0 && Alike(mem, p) && (!p.meta.appAssigned ==> row.key < first))
    case Add(p, generated) =>
      || Has(entries, p)
      || (&& p in mem
          && if p.meta.appAssigned then Free(mem, p, if At(mem, p).key == 0 then generated else At(mem, p).key) else At(mem, p).key == 0)
    case AttachAs(p, _) => Has(entries, p)
    case Assign(p, _) => p in mem
    case Raise(p, _) => p in mem
    case SaveChanges(_) => FreshKeys(entries, mem)
    case Savepoint(base, body, fails, _, faults) =>
      || faults.opening
      || (&& TidyAll(Opened(s, base), body, first)
          && var inner := ExecAll(Opened(s, base), body); fails || FreshKeys(inner.tracked.entries, inner.world.mem))
    case _ => true
  }

  ghost predicate TidyAll(s: TxState, ops: seq<Op>, first: int)
    decreases ops, 0
  {
    ops == [] || (Tidy(s, ops[0], first) && TidyAll(Exec(s, ops[0]).tx, ops[1..], first))
  }

  /** Nothing in the list became the same row, and what was found is found still, or has a key from this transaction. */
  lemma FlushMaps(s: TxState, refuse: set<Ptr>, first: int)
    requires Mapped(s, first) && FreshKeys(s.tracked.entries, s.world.mem)
    ensures var now := AfterSave(s, refuse).tx; Mapped(now, first) && NoNewTwins(s.world.mem, now.world.mem)
  {
    var found := AfterDetect(s.tracked, s.world.mem).entries;
    var now := AfterSave(s, refuse).tx;
    SavedLive(s, refuse);
    FlushedPointers(s.tracked, s.world, refuse);
    WorkPointers(s.tracked, s.world.mem);
    hide Work, AfterDetect, RunList, AllMarked, FreshKeys, Issued, SlotsLive, OneEach;
    forall e | e in Work(found) ensures e.entity in s.world.mem { WorkIsTracked(s.tracked, s.world.mem, e); }
    RunMoves(s.world, Work(found), |Work(found)|, refuse);
    CarriedOver(s.tracked, now.tracked, s.world, now.world, first);
  }

  lemma FlushedPointers(t: Contents, w: World, refuse: set<Ptr>)
    requires OneEach(t.entries)
    ensures var now := FlushAll(t, w, refuse).tracked; now.byPK == t.byPK && |now.entries| == |t.entries|
    ensures forall i | 0 <= i < |t.entries| :: FlushAll(t, w, refuse).tracked.entries[i].entity == t.entries[i].entity
  {
  }

  lemma WorkPointers(t: Contents, mem: Memory)
    ensures |AfterDetect(t, mem).entries| == |t.entries|
    ensures forall i | 0 <= i < |t.entries| :: AfterDetect(t, mem).entries[i].entity == t.entries[i].entity
  {
  }

  lemma WorkIsTracked(t: Contents, mem: Memory, e: Entry)
    requires OneEach(t.entries) && InMemory(t.entries, mem) && e in Work(AfterDetect(t, mem).entries)
    ensures e.entity in mem
  {
    var found := AfterDetect(t, mem).entries;
    WorkPointers(t, mem);
    WorkOnce(found);
    hide Work, AfterDetect;
    var i :| 0 <= i < |found| && found[i] == e;
    assert t.entries[i] in t.entries;
  }

  /** The same pointers, with keys that moved only to generated ones. */
  lemma CarriedOver(t: Contents, now: Contents, w: World, later: World, first: int)
    requires InMemory(t.entries, w.mem) && NoTwins(t.entries, w.mem) && Resolves(t, w.mem, first) && first <= w.nextKey
    requires |now.entries| == |t.entries| && now.byPK == t.byPK && forall i | 0 <= i < |t.entries| :: now.entries[i].entity == t.entries[i].entity
    requires NoNewTwins(w.mem, later.mem)
    requires forall p | p in w.mem && At(later.mem, p).key != At(w.mem, p).key :: !p.meta.appAssigned && At(later.mem, p).key >= w.nextKey
    ensures InMemory(now.entries, later.mem) && NoTwins(now.entries, later.mem) && Resolves(now, later.mem, first)
  {
    hide *;
    SamePlaces(t.entries, now.entries);
    CarriedTwins(t.entries, now.entries, w.mem, later.mem);
    forall e | e in now.entries && At(later.mem, e.entity).key != 0
      ensures Slotted(now, later.mem, e.entity) || (!e.entity.meta.appAssigned && At(later.mem, e.entity).key >= first)
    {
      var d :| d in t.entries && d.entity == e.entity;
      InMemoryAt(t.entries, w.mem, d);
      if At(later.mem, d.entity).key == At(w.mem, d.entity).key {
        SlotStays(t, now, w.mem, later.mem, d.entity);
        ResolvesAt(t, w.mem, first, d);
      }
    }
    AllResolve(now, later.mem, first);
  }

  lemma InMemoryAt(entries: seq<Entry>, mem: Memory, e: Entry)
    requires InMemory(entries, mem) && e in entries
    ensures e.entity in mem
  {
  }

  lemma ResolvesAt(t: Contents, mem: Memory, first: int, e: Entry)
    requires Resolves(t, mem, first) && e in t.entries && At(mem, e.entity).key != 0
    ensures Slotted(t, mem, e.entity) || (!e.entity.meta.appAssigned && At(mem, e.entity).key >= first)
  {
  }

  lemma AllResolve(t: Contents, mem: Memory, first: int)
    requires forall e | e in t.entries && At(mem, e.entity).key != 0 ::
               Slotted(t, mem, e.entity) || (!e.entity.meta.appAssigned && At(mem, e.entity).key >= first)
    ensures Resolves(t, mem, first)
  {
  }

  lemma CarriedTwins(a: seq<Entry>, b: seq<Entry>, mem: Memory, later: Memory)
    requires InMemory(a, mem) && NoTwins(a, mem) && NoNewTwins(mem, later) && forall e | e in b :: exists d | d in a :: d.entity == e.entity
    ensures InMemory(b, later) && NoTwins(b, later)
  {
    hide Twins;
    forall e, f | e in b && f in b ensures !Twins(later, e.entity, f.entity) {
      var d :| d in a && d.entity == e.entity;
      var g :| g in a && g.entity == f.entity;
      assert !Twins(mem, d.entity, g.entity);
    }
  }

  lemma SamePlaces(a: seq<Entry>, b: seq<Entry>)
    requires |a| == |b| && forall i | 0 <= i < |a| :: a[i].entity == b[i].entity
    ensures forall e | e in b :: exists d | d in a :: d.entity == e.entity
  {
    forall e | e in b ensures exists d | d in a :: d.entity == e.entity {
      var i :| 0 <= i < |b| && b[i] == e;
      assert a[i] in a;
    }
  }

  lemma SlotStays(t: Contents, now: Contents, mem: Memory, later: Memory, p: Ptr)
    requires now.byPK == t.byPK && At(later, p).key == At(mem, p).key
    ensures Slotted(now, later, p) <==> Slotted(t, mem, p)
  {
  }

  /** One record more: nobody's twin, and found by its key. */
  lemma MappedMore(s: TxState, now: TxState, e: Entry, first: int)
    requires Mapped(s, first) && Live(now) && Issued(now.world) && now.world.nextKey == s.world.nextKey
    requires now.tracked.entries == s.tracked.entries + [e] && e.entity in now.world.mem && s.world.mem.Keys <= now.world.mem.Keys
    requires forall d | d in s.tracked.entries ::
               d.entity != e.entity && At(now.world.mem, d.entity) == At(s.world.mem, d.entity) && !Twins(now.world.mem, d.entity, e.entity)
    requires now.tracked.byPK == if At(now.world.mem, e.entity).key == 0 then s.tracked.byPK
                                 else s.tracked.byPK[NamedBy(now.world.mem, e.entity) := Slot(e.entity, true)]
    ensures Mapped(now, first)
  {
    hide Live, Issued;
    var mem := now.world.mem;
    forall d, f | d in now.tracked.entries && f in now.tracked.entries ensures !Twins(mem, d.entity, f.entity) {
      assert d in s.tracked.entries && f in s.tracked.entries ==> !Twins(s.world.mem, d.entity, f.entity);
    }
    forall d | d in s.tracked.entries && At(mem, d.entity).key != 0
      ensures Slotted(now.tracked, mem, d.entity) || (!d.entity.meta.appAssigned && At(mem, d.entity).key >= first)
    {
      assert !Twins(mem, d.entity, e.entity);
    }
  }

  lemma LoadMaps(s: TxState, p: Ptr, row: Entity, first: int)
    requires Mapped(s, first) && Tidy(s, Load(p, row), first)
    ensures var now := Simple(s, Load(p, row)); Mapped(now, first) && NoNewTwins(s.world.mem, now.world.mem)
  {
    var op, now := Load(p, row), Simple(s, Load(p, row));
    MappedIsLive(s, first);
    SimpleLive(s, op);
    SimpleOneEach(s, op);
    assert Live(now);
    if Has(s.tracked.entries, p) {
      CountedMaps(s, first);
    } else {
      LoadedMemory(s, p, row, first);
      LoadedTracker(s, p, row);
      hide *;
      if Key(p.meta.table, row.key) in s.tracked.byPK {
        SameRecords(s, now, first);
      } else {
        forall e | e in s.tracked.entries ensures !Twins(s.world.mem[p := row], e.entity, p) { NoSlotNoTwin(s, p, row, first, e); }
        MappedMore(s, now, NewEntry(p, Unchanged, SnapshotOf(s.world.mem[p := row], p), false, true), first);
      }
    }
  }

  /** A row in a new instance. */
  lemma LoadedMemory(s: TxState, p: Ptr, row: Entity, first: int)
    requires Mapped(s, first) && p !in s.world.mem && row.key != 0 && Alike(s.world.mem, p) && (!p.meta.appAssigned ==> row.key < first)
    ensures var mem := s.world.mem[p := row];
            && Issued(s.world.(mem := mem)) && NoNewTwins(s.world.mem, mem) && s.world.mem.Keys <= mem.Keys && p in mem
            && NamedBy(mem, p) == Key(p.meta.table, row.key) && At(mem, p).key != 0
            && (forall e | e in s.tracked.entries :: e.entity != p && At(mem, e.entity) == At(s.world.mem, e.entity))
  {
    hide Live, NoTwins, Resolves;
  }

  lemma LoadedTracker(s: TxState, p: Ptr, row: Entity)
    requires !Has(s.tracked.entries, p) && row.key != 0
    ensures var now, mem, k := Simple(s, Load(p, row)), s.world.mem[p := row], Key(p.meta.table, row.key);
            && now.world == s.world.(mem := mem)
            && NewEntry(p, Unchanged, SnapshotOf(mem, p), false, true).entity == p
            && (k in s.tracked.byPK ==> now.tracked == s.tracked)
            && (k !in s.tracked.byPK ==>
                  now.tracked == Contents(s.tracked.entries + [NewEntry(p, Unchanged, SnapshotOf(mem, p), false, true)],
                                          s.tracked.byPK[k := Slot(p, true)]))
  {
    assert KeyOf(s.world.mem[p := row], p) == Some(Key(p.meta.table, row.key));
    hide Has;
  }

  lemma SameRecords(s: TxState, now: TxState, first: int)
    requires Mapped(s, first) && Live(now) && Issued(now.world) && now.world.nextKey == s.world.nextKey && now.tracked == s.tracked
    requires s.world.mem.Keys <= now.world.mem.Keys && forall e | e in s.tracked.entries :: At(now.world.mem, e.entity) == At(s.world.mem, e.entity)
    ensures Mapped(now, first)
  {
    hide Live, Issued;
    forall d, f | d in s.tracked.entries && f in s.tracked.entries ensures !Twins(now.world.mem, d.entity, f.entity) {
      assert !Twins(s.world.mem, d.entity, f.entity);
    }
  }

  lemma NoSlotNoTwin(s: TxState, p: Ptr, row: Entity, first: int, e: Entry)
    requires Mapped(s, first) && e in s.tracked.entries && p !in s.world.mem && row.key != 0 && Alike(s.world.mem, p)
    requires (!p.meta.appAssigned ==> row.key < first) && Key(p.meta.table, row.key) !in s.tracked.byPK
    ensures !Twins(s.world.mem[p := row], e.entity, p)
  {
    hide Live, NoTwins;
    assert e.entity in s.world.mem && e.entity != p;
  }

  lemma AddMaps(s: TxState, p: Ptr, generated: int, first: int)
    requires Mapped(s, first) && Tidy(s, Add(p, generated), first)
    ensures var now := Simple(s, Add(p, generated)); Mapped(now, first) && NoNewTwins(s.world.mem, now.world.mem)
  {
    var op, now := Add(p, generated), Simple(s, Add(p, generated));
    MappedIsLive(s, first);
    SimpleLive(s, op);
    SimpleOneEach(s, op);
    assert Live(now);
    if Has(s.tracked.entries, p) {
      CountedMaps(s, first);
    } else {
      StampMaps(s, p, generated);
      forall e | e in s.tracked.entries ensures e.entity != p { NotHere(s.tracked.entries, p, e); }
      AddedTracker(s, p, generated);
      hide *;
      MappedMore(s, now, NewEntry(p, EntityState.Added, None, false, false), first);
    }
  }

  lemma AddedTracker(s: TxState, p: Ptr, generated: int)
    requires !Has(s.tracked.entries, p)
    ensures var now, mem := Simple(s, Add(p, generated)), Stamped(s.world.mem, p, generated);
            && now.world == s.world.(mem := mem) && NewEntry(p, EntityState.Added, None, false, false).entity == p
            && now.tracked == Contents(s.tracked.entries + [NewEntry(p, EntityState.Added, None, false, false)],
                                       if At(mem, p).key == 0 then s.tracked.byPK else s.tracked.byPK[NamedBy(mem, p) := Slot(p, true)])
  {
    hide Has, Stamped;
  }

  lemma NotHere(entries: seq<Entry>, p: Ptr, e: Entry)
    requires !Has(entries, p) && e in entries
    ensures e.entity != p
  {
    var i :| 0 <= i < |entries| && entries[i] == e;
  }

  /** A stamped key is nobody else's. */
  lemma StampMaps(s: TxState, p: Ptr, generated: int)
    requires Issued(s.world) && p in s.world.mem && InMemory(s.tracked.entries, s.world.mem)
    requires if p.meta.appAssigned then Free(s.world.mem, p, if At(s.world.mem, p).key == 0 then generated else At(s.world.mem, p).key)
             else At(s.world.mem, p).key == 0
    ensures var mem := Stamped(s.world.mem, p, generated);
            && Issued(s.world.(mem := mem)) && NoNewTwins(s.world.mem, mem) && mem.Keys == s.world.mem.Keys && p in mem
            && (forall q | q != p :: At(mem, q) == At(s.world.mem, q))
            && (forall e | e in s.tracked.entries && e.entity != p :: !Twins(mem, e.entity, p) && !Twins(mem, p, e.entity))
  {
  }

  lemma LeftMaps(s: TxState, op: Op, first: int)
    requires Mapped(s, first) && (op.DetachIt? || op.Remove? || op.HardRemove? || op.AttachAs? || op.Assign? || op.Raise? || op.RawSql?)
    requires Tidy(s, op, first)
    ensures var now := Simple(s, op); Mapped(now, first) && NoNewTwins(s.world.mem, now.world.mem)
  {
    var now := Simple(s, op);
    SimpleLive(s, op);
    SimpleOneEach(s, op);
    KeysStay(s, op);
    hide SlotsLive, OneEach, FreshKeys;
    forall e | e in now.tracked.entries
      ensures exists d | d in s.tracked.entries :: d.entity == e.entity && (Slotted(s.tracked, s.world.mem, d.entity) ==> Slotted(now.tracked, now.world.mem, e.entity))
    {
      LeftSlot(s, op, first, e);
    }
    Subset(s, now, first);
  }

  lemma KeysStay(s: TxState, op: Op)
    requires op.DetachIt? || op.Remove? || op.HardRemove? || op.AttachAs? || op.Assign? || op.Raise? || op.RawSql?
    requires Issued(s.world) && ((op.Assign? || op.Raise?) ==> op.p in s.world.mem)
    ensures var now := Simple(s, op).world;
            && Issued(now) && now.nextKey == s.world.nextKey && now.mem.Keys == s.world.mem.Keys
            && (forall p :: At(now.mem, p).key == At(s.world.mem, p).key) && NoNewTwins(s.world.mem, now.mem)
  {
    hide AfterAttach, AfterDetach, AfterRemove, AfterHardRemove;
  }

  lemma LeftSlot(s: TxState, op: Op, first: int, e: Entry)
    requires OneEach(s.tracked.entries)
    requires op.DetachIt? || op.Remove? || op.HardRemove? || op.AttachAs? || op.Assign? || op.Raise? || op.RawSql?
    requires Tidy(s, op, first) && e in Simple(s, op).tracked.entries
    requires forall p :: At(Simple(s, op).world.mem, p).key == At(s.world.mem, p).key
    ensures exists d | d in s.tracked.entries ::
              d.entity == e.entity && (Slotted(s.tracked, s.world.mem, d.entity) ==> Slotted(Simple(s, op).tracked, Simple(s, op).world.mem, e.entity))
  {
    var now := Simple(s, op);
    if (op.DetachIt? || (op.Remove? && PendingInsert(s.tracked.entries, op.p))) && Has(s.tracked.entries, op.p) {
      assert now.tracked == AfterDetach(s.tracked, s.world.mem, op.p) && now.world == s.world;
      hide Simple, AfterRemove, Has;
      DetachedSlot(s, op.p, e);
    } else {
      SameEntries(s, op);
      hide Simple, PendingInsert, Has;
      var i :| 0 <= i < |now.tracked.entries| && now.tracked.entries[i] == e;
      assert s.tracked.entries[i] in s.tracked.entries && s.tracked.entries[i].entity == e.entity;
    }
  }

  lemma SameEntries(s: TxState, op: Op)
    requires op.DetachIt? || op.Remove? || op.HardRemove? || op.AttachAs? || op.Assign? || op.Raise? || op.RawSql?
    requires op.AttachAs? ==> Has(s.tracked.entries, op.p)
    requires !(op.DetachIt? || op.Remove?) || !Has(s.tracked.entries, op.p) || (op.Remove? && !PendingInsert(s.tracked.entries, op.p))
    ensures var now := Simple(s, op).tracked;
            && now.byPK == s.tracked.byPK && |now.entries| == |s.tracked.entries|
            && forall i | 0 <= i < |now.entries| :: now.entries[i].entity == s.tracked.entries[i].entity
  {
    hide Has, PendingInsert;
  }

  lemma DetachedSlot(s: TxState, p: Ptr, e: Entry)
    requires OneEach(s.tracked.entries) && Has(s.tracked.entries, p) && e in AfterDetach(s.tracked, s.world.mem, p).entries
    ensures e in s.tracked.entries
    ensures Slotted(s.tracked, s.world.mem, e.entity) ==> Slotted(AfterDetach(s.tracked, s.world.mem, p), s.world.mem, e.entity)
  {
    var n := |s.tracked.entries|;
    WithoutOneEach(s.tracked.entries, p, n);
    WithoutIs(s.tracked.entries, p, n, e);
    hide Has, Without, OneEach;
  }

  lemma {:induction false} WithoutIs(entries: seq<Entry>, p: Ptr, n: nat, e: Entry)
    requires n <= |entries| && e in Without(entries, p, n)
    ensures e.entity != p
  {
    if n > 0 && e in Without(entries, p, n - 1) { WithoutIs(entries, p, n - 1, e); }
  }

  lemma Subset(s: TxState, now: TxState, first: int)
    requires InMemory(s.tracked.entries, s.world.mem) && NoTwins(s.tracked.entries, s.world.mem) && Resolves(s.tracked, s.world.mem, first)
    requires now.world.mem.Keys == s.world.mem.Keys && forall p :: At(now.world.mem, p).key == At(s.world.mem, p).key
    requires forall e | e in now.tracked.entries :: exists d | d in s.tracked.entries ::
               d.entity == e.entity && (Slotted(s.tracked, s.world.mem, d.entity) ==> Slotted(now.tracked, now.world.mem, e.entity))
    ensures InMemory(now.tracked.entries, now.world.mem) && NoTwins(now.tracked.entries, now.world.mem) && Resolves(now.tracked, now.world.mem, first)
  {
    forall e, f | e in now.tracked.entries && f in now.tracked.entries ensures !Twins(now.world.mem, e.entity, f.entity) {
      var d :| d in s.tracked.entries && d.entity == e.entity;
      var g :| g in s.tracked.entries && g.entity == f.entity;
      assert !Twins(s.world.mem, d.entity, g.entity);
    }
  }

  lemma SimpleMaps(s: TxState, op: Op, first: int)
    requires Mapped(s, first) && Tidy(s, op, first) && !op.Savepoint? && !op.SaveChanges?
    ensures var now := Simple(s, op); Mapped(now, first) && NoNewTwins(s.world.mem, now.world.mem)
  {
    hide *;
    match op
    case Load(p, row) => LoadMaps(s, p, row, first);
    case Add(p, generated) => AddMaps(s, p, generated, first);
    case _ => LeftMaps(s, op, first);
  }

  /** Rebuilt slots find every record, when no two have one key. */
  lemma {:induction false} ReindexedOwn(entries: seq<Entry>, mem: Memory, n: nat, i: nat)
    requires i < n <= |entries| && NoTwins(entries, mem) && At(mem, entries[i].entity).key != 0
    ensures var slots := Reindexed(entries, mem, n); NamedBy(mem, entries[i].entity) in slots && slots[NamedBy(mem, entries[i].entity)].entity == entries[i].entity
  {
    var last := entries[n - 1];
    assert entries[i] in entries && last in entries && !Twins(mem, entries[i].entity, last.entity);
    if i < n - 1 { ReindexedOwn(entries, mem, n - 1, i); }
  }

  lemma RestoredMaps(s: TxState, now: TxState, back: TxState, first: int)
    requires Mapped(s, first) && Mapped(now, first) && NoNewTwins(s.world.mem, now.world.mem)
    requires back.world.mem == now.world.mem && back.world.nextKey == now.world.nextKey && Live(back)
    requires back.tracked == AfterRestore(s.tracked.entries, now.world.mem)
    ensures Mapped(back, first) && NoNewTwins(s.world.mem, back.world.mem)
  {
    var entries, mem := s.tracked.entries, now.world.mem;
    hide Live, Reindexed;
    forall e, f | e in entries && f in entries ensures !Twins(mem, e.entity, f.entity) { assert !Twins(s.world.mem, e.entity, f.entity); }
    forall e | e in entries && At(mem, e.entity).key != 0 ensures Slotted(back.tracked, mem, e.entity) {
      var i :| 0 <= i < |entries| && entries[i] == e;
      ReindexedOwn(entries, mem, |entries|, i);
    }
  }

  lemma EndMaps(s: TxState, now: TxState, name: Name, faults: Faults, first: int)
    requires Mapped(s, first) && Mapped(now, first) && NoNewTwins(s.world.mem, now.world.mem)
    ensures var r := Rewind(s, now, name, faults).tx; Mapped(r, first) && NoNewTwins(s.world.mem, r.world.mem)
    ensures var r := Release(s, now, name, faults).tx; Mapped(r, first) && NoNewTwins(s.world.mem, r.world.mem)
  {
    hide *;
    MappedIsLive(s, first);
    MappedIsLive(now, first);
    RestoredLive(s, now, name, faults);
    var r, q := Rewind(s, now, name, faults).tx, Release(s, now, name, faults).tx;
    EndsAre(s, now, name, faults);
    if r.tracked == now.tracked { SameMaps(now, r, first); } else { RestoredMaps(s, now, r, first); }
    if q.tracked == now.tracked { SameMaps(now, q, first); } else { RestoredMaps(s, now, q, first); }
  }

  lemma MappedIsLive(s: TxState, first: int)
    requires Mapped(s, first)
    ensures Live(s)
  {
    hide Live;
  }

  lemma EndsAre(s: TxState, now: TxState, name: Name, faults: Faults)
    ensures var r := Rewind(s, now, name, faults).tx;
            && r.world.mem == now.world.mem && r.world.nextKey == now.world.nextKey
            && (r.tracked == now.tracked || r.tracked == AfterRestore(s.tracked.entries, now.world.mem))
    ensures var r := Release(s, now, name, faults).tx;
            && r.world.mem == now.world.mem && r.world.nextKey == now.world.nextKey
            && (r.tracked == now.tracked || r.tracked == AfterRestore(s.tracked.entries, now.world.mem))
  {
    hide AfterRestore, Found;
  }

  lemma SameMaps(a: TxState, b: TxState, first: int)
    requires Mapped(a, first) && b.tracked == a.tracked && b.world.mem == a.world.mem && b.world.nextKey == a.world.nextKey
    ensures Mapped(b, first)
  {
  }

  /** Through any tidy operation, nested savepoints and their rewinds included, each row is tracked once and found by its key. */
  lemma {:induction false} ExecMaps(s: TxState, op: Op, first: int)
    requires Mapped(s, first) && Tidy(s, op, first)
    ensures Mapped(Exec(s, op).tx, first) && NoNewTwins(s.world.mem, Exec(s, op).tx.world.mem)
    decreases op, 1
  {
    hide Simple, AfterSave, Rewind, Release, Opened, FreshKeys, Mapped, NoNewTwins, ExecAll, Has, Alike, Free;
    if op.SaveChanges? {
      FlushMaps(s, op.refuse, first);
    } else if !op.Savepoint? {
      SimpleMaps(s, op, first);
    } else if op.faults.opening {
      CountedMaps(s, first);
    } else {
      OpenedMaps(s, op.base, first);
      ExecAllMaps(Opened(s, op.base), op.body, first);
      SavepointMaps(s, op, first);
    }
  }

  lemma CountedMaps(s: TxState, first: int)
    requires Mapped(s, first)
    ensures Mapped(s.(counter := s.counter + 1), first) && NoNewTwins(s.world.mem, s.world.mem)
  {
  }

  lemma OpenedMaps(s: TxState, base: string, first: int)
    requires Mapped(s, first)
    ensures Mapped(Opened(s, base), first) && Opened(s, base).world.mem == s.world.mem
  {
  }

  lemma SavepointMaps(s: TxState, op: Op, first: int)
    requires Mapped(s, first) && op.Savepoint? && !op.faults.opening
    requires var inner := ExecAll(Opened(s, op.base), op.body);
             && Mapped(inner, first) && NoNewTwins(s.world.mem, inner.world.mem)
             && (op.fails || FreshKeys(inner.tracked.entries, inner.world.mem))
    ensures Mapped(Exec(s, op).tx, first) && NoNewTwins(s.world.mem, Exec(s, op).tx.world.mem)
  {
    hide *;
    var inner, name := ExecAll(Opened(s, op.base), op.body), Name(op.base, s.counter + 1);
    SavepointEnds(s, op);
    EndMaps(s, inner, name, op.faults, first);
    if !op.fails {
      FlushMaps(inner, op.refuse, first);
      MovesTwice(s.world.mem, inner.world.mem, AfterSave(inner, op.refuse).tx.world.mem);
      EndMaps(s, AfterSave(inner, op.refuse).tx, name, op.faults, first);
    }
  }

  lemma {:induction false} ExecAllMaps(s: TxState, ops: seq<Op>, first: int)
    requires Mapped(s, first) && TidyAll(s, ops, first)
    ensures Mapped(ExecAll(s, ops), first) && NoNewTwins(s.world.mem, ExecAll(s, ops).world.mem)
    decreases ops, 0
  {
    hide Mapped, Exec, Tidy, NoNewTwins;
    if ops != [] {
      ExecMaps(s, ops[0], first);
      ExecAllMaps(Exec(s, ops[0]).tx, ops[1..], first);
      MovesTwice(s.world.mem, Exec(s, ops[0]).tx.world.mem, ExecAll(s, ops).world.mem);
    } else {
      CountedMaps(s, first);
    }
  }

  /** From an empty tracker on. */
  lemma StartsMapped(s: TxState)
    requires s.tracked == Contents([], map[]) && Issued(s.world)
    ensures Mapped(s, s.world.nextKey)
  {
  }

  // ---- After the commit ---------------------------------------------------------------------

  function Pointers(entries: seq<Entry>): seq<Ptr> { seq(|entries|, i requires 0 <= i < |entries| => entries[i].entity) }

  predicate Stays(e: Entry) { !e.state.Deleted? }

  /** What the record of an entity becomes: a changed one starts over from what the entity holds. */
  ghost predicate StartsOver(mem: Memory, d: Entry, e: Entry) {
    && e.entity == d.entity && e.state.Unchanged? && !e.flushed && e.hardDelete == d.hardDelete
    && (if d.state.Unchanged? then e.snapshot == d.snapshot && e.forceUpdate == d.forceUpdate && e.loaded == d.loaded && e.everDirty == d.everDirty
        else e.snapshot == SnapshotOf(mem, d.entity) && !e.forceUpdate && e.loaded && !e.everDirty)
  }

  /** The deleted records go, the others stay in their order. */
  lemma {:induction false} CommitKeepsOrder(t: Contents, mem: Memory, n: nat)
    requires n <= |t.entries|
    ensures Pointers(AfterCommit(t, mem, n).entries) == Pointers(Filter(Stays, t.entries[..n]))
    ensures |AfterCommit(t, mem, n).entries| == |Filter(Stays, t.entries[..n])|
    ensures forall i | 0 <= i < |AfterCommit(t, mem, n).entries| :: StartsOver(mem, Filter(Stays, t.entries[..n])[i], AfterCommit(t, mem, n).entries[i])
  {
    if n > 0 {
      CommitKeepsOrder(t, mem, n - 1);
      assert t.entries[..n] == t.entries[..n - 1] + [t.entries[n - 1]];
      FilterLast(Stays, t.entries[..n - 1], t.entries[n - 1]);
      CommitRecord(t, mem, n);
      hide AfterCommit, Filter, StartsOver;
    }
  }

  lemma CommitRecord(t: Contents, mem: Memory, n: nat)
    requires 0 < n <= |t.entries|
    ensures var e := t.entries[n - 1];
            AfterCommit(t, mem, n).entries == AfterCommit(t, mem, n - 1).entries + if Stays(e) then [Settled(mem, e)] else []
    ensures Stays(t.entries[n - 1]) ==> StartsOver(mem, t.entries[n - 1], Settled(mem, t.entries[n - 1]))
  {
  }

  lemma {:induction false} FilterLast<T>(keep: T -> bool, s: seq<T>, x: T)
    ensures Filter(keep, s + [x]) == Filter(keep, s) + if keep(x) then [x] else []
  {
    if s == [] {
      assert [x][1..] == [];
    } else {
      assert (s + [x])[1..] == s[1..] + [x];
      FilterLast(keep, s[1..], x);
    }
  }

  /** An edit after the commit is found exactly when it changes a column of what was committed. */
  lemma EditFoundAfterCommit(t: Contents, mem: Memory, d: Entry, later: Memory) returns (e: Entry)
    requires d in t.entries && (d.state.Added? || d.state.Modified?)
    ensures e in AfterCommit(t, mem, |t.entries|).entries && e.entity == d.entity
    ensures IsDirty(later, e) <==> d.entity.meta.diffable && Diff(At(later, d.entity).fields, At(mem, d.entity).fields) != map[]
  {
    var n := |t.entries|;
    assert t.entries[..n] == t.entries;
    CommitKeepsOrder(t, mem, n);
    FilterElements(Stays, t.entries);
    var kept := Filter(Stays, t.entries);
    hide AfterCommit, Filter;
    var i :| 0 <= i < |kept| && kept[i] == d;
    e := AfterCommit(t, mem, n).entries[i];
  }

  /** The slots when the first n records are finalized: each holds the entity that has its key and is not among the deleted ones. */
  ghost predicate SlotsThen(t: Contents, mem: Memory, n: nat, byPK: map<Key, Slot>)
    requires n <= |t.entries|
  {
    OwnSlots(t, mem, byPK) && NotDeleted(t, n, byPK) && StillSlotted(t, mem, n, byPK)
  }

  ghost predicate OwnSlots(t: Contents, mem: Memory, byPK: map<Key, Slot>) {
    forall k | k in byPK :: byPK[k].live && KeyOf(mem, byPK[k].entity) == Some(k) && Has(t.entries, byPK[k].entity)
  }

  ghost predicate NotDeleted(t: Contents, n: nat, byPK: map<Key, Slot>)
    requires n <= |t.entries|
  {
    forall k, i | k in byPK && 0 <= i < n && t.entries[i].state.Deleted? :: byPK[k].entity != t.entries[i].entity
  }

  /** The record had its slot, or its insert is among the first n. */
  predicate HasSlot(t: Contents, mem: Memory, n: nat, i: nat)
    requires i < |t.entries|
  {
    || (Slotted(t, mem, t.entries[i].entity) && (i >= n || Stays(t.entries[i])))
    || (i < n && t.entries[i].state.Added? && At(mem, t.entries[i].entity).key != 0)
  }

  ghost predicate StillSlotted(t: Contents, mem: Memory, n: nat, byPK: map<Key, Slot>)
    requires n <= |t.entries|
  {
    forall i | 0 <= i < |t.entries| && HasSlot(t, mem, n, i) :: Slotted(Contents(t.entries, byPK), mem, t.entries[i].entity)
  }

  lemma {:induction false} CommitSlots(t: Contents, mem: Memory, n: nat)
    requires OneEach(t.entries) && SlotsLive(t, mem) && NoTwins(t.entries, mem) && n <= |t.entries|
    ensures SlotsThen(t, mem, n, AfterCommit(t, mem, n).byPK)
  {
    if n > 0 {
      CommitSlots(t, mem, n - 1);
      var before, e := AfterCommit(t, mem, n - 1).byPK, t.entries[n - 1];
      CommitSlot(t, mem, n);
      hide AfterCommit, SlotsThen, SlotsLive;
      if e.state.Deleted? {
        SlotGoes(t, mem, n, before);
      } else if e.state.Added? && At(mem, e.entity).key != 0 {
        SlotComes(t, mem, n, before);
      } else {
        SlotsSame(t, mem, n, before);
      }
    }
  }

  lemma CommitSlot(t: Contents, mem: Memory, n: nat)
    requires 0 < n <= |t.entries|
    ensures var before, e := AfterCommit(t, mem, n - 1).byPK, t.entries[n - 1];
            AfterCommit(t, mem, n).byPK ==
            if e.state.Deleted? then Unslotted(before, mem, e.entity)
            else if e.state.Added? && At(mem, e.entity).key != 0 then before[NamedBy(mem, e.entity) := Slot(e.entity, true)]
            else before
  {
  }

  lemma SlotGoes(t: Contents, mem: Memory, n: nat, before: map<Key, Slot>)
    requires OneEach(t.entries) && 0 < n <= |t.entries| && SlotsThen(t, mem, n - 1, before) && t.entries[n - 1].state.Deleted?
    ensures SlotsThen(t, mem, n, Unslotted(before, mem, t.entries[n - 1].entity))
  {
    var e, after := t.entries[n - 1], Unslotted(before, mem, t.entries[n - 1].entity);
    UnslottedIs(t, mem, before, e.entity);
    hide Has, OneEach, Slotted, Unslotted;
    assert OwnSlots(t, mem, after) && NotDeleted(t, n, after);
    forall i | 0 <= i < |t.entries| && HasSlot(t, mem, n, i) ensures Slotted(Contents(t.entries, after), mem, t.entries[i].entity) {
      assert HasSlot(t, mem, n - 1, i);
      OtherRecord(t.entries, i, n - 1);
      SlotAside(t.entries, mem, before, e.entity, t.entries[i].entity);
    }
  }

  lemma UnslottedIs(t: Contents, mem: Memory, before: map<Key, Slot>, p: Ptr)
    requires OwnSlots(t, mem, before)
    ensures var after := Unslotted(before, mem, p);
            forall k | k in after :: k in before && after[k] == before[k] && after[k].entity != p
  {
    hide Has;
  }

  lemma OtherRecord(entries: seq<Entry>, i: nat, j: nat)
    requires OneEach(entries) && i < |entries| && j < |entries|
    ensures i != j ==> entries[i].entity != entries[j].entity
  {
  }

  lemma SlotAside(entries: seq<Entry>, mem: Memory, before: map<Key, Slot>, p: Ptr, q: Ptr)
    requires p != q && Slotted(Contents(entries, before), mem, q)
    ensures Slotted(Contents(entries, Unslotted(before, mem, p)), mem, q)
  {
  }

  lemma SlotComes(t: Contents, mem: Memory, n: nat, before: map<Key, Slot>)
    requires OneEach(t.entries) && NoTwins(t.entries, mem) && 0 < n <= |t.entries| && SlotsThen(t, mem, n - 1, before)
    requires t.entries[n - 1].state.Added? && At(mem, t.entries[n - 1].entity).key != 0
    ensures var p := t.entries[n - 1].entity; SlotsThen(t, mem, n, before[NamedBy(mem, p) := Slot(p, true)])
  {
    var p := t.entries[n - 1].entity;
    var after := before[NamedBy(mem, p) := Slot(p, true)];
    hide OneEach, NoTwins, Twins, Slotted;
    assert OwnSlots(t, mem, after) by { assert t.entries[n - 1].entity == p; }
    forall i | 0 <= i < n - 1 && t.entries[i].state.Deleted? ensures t.entries[i].entity != p { OtherRecord(t.entries, i, n - 1); }
    forall i | 0 <= i < |t.entries| && HasSlot(t, mem, n, i) ensures Slotted(Contents(t.entries, after), mem, t.entries[i].entity) {
      if i == n - 1 {
        OwnSlot(t.entries, mem, before, p);
      } else {
        assert HasSlot(t, mem, n - 1, i);
        SlotHasKey(t, mem, before, i);
        SlotBeside(t.entries, mem, before, i, n - 1);
      }
    }
  }

  lemma OwnSlot(entries: seq<Entry>, mem: Memory, before: map<Key, Slot>, p: Ptr)
    ensures Slotted(Contents(entries, before[NamedBy(mem, p) := Slot(p, true)]), mem, p)
  {
  }

  lemma SlotBeside(entries: seq<Entry>, mem: Memory, before: map<Key, Slot>, i: nat, j: nat)
    requires OneEach(entries) && NoTwins(entries, mem) && i < |entries| && j < |entries| && i != j
    requires Slotted(Contents(entries, before), mem, entries[i].entity) && At(mem, entries[i].entity).key != 0
    ensures var p := entries[j].entity; Slotted(Contents(entries, before[NamedBy(mem, p) := Slot(p, true)]), mem, entries[i].entity)
  {
    assert entries[i] in entries && entries[j] in entries && !Twins(mem, entries[i].entity, entries[j].entity);
  }

  lemma SlotHasKey(t: Contents, mem: Memory, byPK: map<Key, Slot>, i: nat)
    requires i < |t.entries| && Slotted(Contents(t.entries, byPK), mem, t.entries[i].entity)
    requires OwnSlots(t, mem, byPK)
    ensures At(mem, t.entries[i].entity).key != 0
  {
    assert KeyOf(mem, byPK[NamedBy(mem, t.entries[i].entity)].entity) == Some(NamedBy(mem, t.entries[i].entity));
  }

  lemma SlotsSame(t: Contents, mem: Memory, n: nat, before: map<Key, Slot>)
    requires 0 < n <= |t.entries| && SlotsThen(t, mem, n - 1, before) && Stays(t.entries[n - 1])
    requires t.entries[n - 1].state.Added? ==> At(mem, t.entries[n - 1].entity).key == 0
    ensures SlotsThen(t, mem, n, before)
  {
    hide Has;
  }

  /**
   * After the commit every tracked entity with a key is found by it, generated keys included, and every slot is a tracked
   * entity's own: the next load of any tracked row gives its instance.
   */
  lemma CommitMaps(s: TxState, first: int)
    requires Mapped(s, first)
    requires forall e | e in s.tracked.entries && At(s.world.mem, e.entity).key >= first && !e.entity.meta.appAssigned :: e.state.Added? || e.state.Deleted?
    ensures var now := AfterCommit(s.tracked, s.world.mem, |s.tracked.entries|);
            && SlotsLive(now, s.world.mem) && NoTwins(now.entries, s.world.mem)
            && forall e | e in now.entries && At(s.world.mem, e.entity).key != 0 :: Slotted(now, s.world.mem, e.entity)
  {
    var t, mem, n := s.tracked, s.world.mem, |s.tracked.entries|;
    CommitSlots(t, mem, n);
    CommitKeepsOrder(t, mem, n);
    assert t.entries[..n] == t.entries;
    FilterElements(Stays, t.entries);
    var now, kept := AfterCommit(t, mem, n), Filter(Stays, t.entries);
    hide AfterCommit, Filter, Pointers, Issued;
    forall e | e in now.entries ensures exists i | 0 <= i < n :: t.entries[i].entity == e.entity && Stays(t.entries[i]) { KeptFrom(mem, kept, t.entries, now.entries, e); }
    CommittedSlots(s, first, now);
    LiveSlots(t, mem, now, kept);
  }

  lemma KeptFrom(mem: Memory, kept: seq<Entry>, entries: seq<Entry>, now: seq<Entry>, e: Entry)
    requires |now| == |kept| && (forall i | 0 <= i < |now| :: StartsOver(mem, kept[i], now[i]))
    requires (forall d :: d in kept <==> d in entries && Stays(d)) && e in now
    ensures exists i | 0 <= i < |entries| :: entries[i].entity == e.entity && Stays(entries[i])
  {
    var j :| 0 <= j < |now| && now[j] == e;
    assert kept[j] in kept;
    var i :| 0 <= i < |entries| && entries[i] == kept[j];
  }

  lemma CommittedSlots(s: TxState, first: int, now: Contents)
    requires Mapped(s, first) && SlotsThen(s.tracked, s.world.mem, |s.tracked.entries|, now.byPK)
    requires forall e | e in s.tracked.entries && At(s.world.mem, e.entity).key >= first && !e.entity.meta.appAssigned :: e.state.Added? || e.state.Deleted?
    requires forall e | e in now.entries :: exists i | 0 <= i < |s.tracked.entries| :: s.tracked.entries[i].entity == e.entity && Stays(s.tracked.entries[i])
    ensures NoTwins(now.entries, s.world.mem)
    ensures forall e | e in now.entries && At(s.world.mem, e.entity).key != 0 :: Slotted(now, s.world.mem, e.entity)
  {
    var entries, mem := s.tracked.entries, s.world.mem;
    hide Live, Issued;
    forall e, f | e in now.entries && f in now.entries ensures !Twins(mem, e.entity, f.entity) {
      var i :| 0 <= i < |entries| && entries[i].entity == e.entity && Stays(entries[i]);
      var j :| 0 <= j < |entries| && entries[j].entity == f.entity && Stays(entries[j]);
      assert entries[i] in entries && entries[j] in entries && !Twins(mem, entries[i].entity, entries[j].entity);
    }
    forall e | e in now.entries && At(mem, e.entity).key != 0 ensures Slotted(now, mem, e.entity) {
      var i :| 0 <= i < |entries| && entries[i].entity == e.entity && Stays(entries[i]);
      assert entries[i] in entries;
      ResolvesAt(s.tracked, mem, first, entries[i]);
    }
  }

  lemma LiveSlots(t: Contents, mem: Memory, now: Contents, kept: seq<Entry>)
    requires SlotsThen(t, mem, |t.entries|, now.byPK) && (forall d :: d in kept <==> d in t.entries && Stays(d))
    requires |now.entries| == |kept| && forall i | 0 <= i < |kept| :: StartsOver(mem, kept[i], now.entries[i])
    ensures SlotsLive(now, mem)
  {
    forall k | k in now.byPK ensures Has(now.entries, now.byPK[k].entity) {
      var i :| 0 <= i < |t.entries| && t.entries[i].entity == now.byPK[k].entity;
      assert Stays(t.entries[i]) && t.entries[i] in t.entries;
      var j :| 0 <= j < |kept| && kept[j] == t.entries[i];
      assert now.entries[j].entity == now.byPK[k].entity;
    }
  }
}
