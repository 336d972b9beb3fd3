/** The transaction object: it runs statements, keeps its tracker in step, and nests savepoints, all by updating in place. */
module Sessions {
  import opened Options
  import opened Tracking
  import opened Flush
  import opened Savepoints

  /** Running one list after another is running them joined. */
  lemma {:induction false} RunJoined(w: World, a: seq<Entry>, b: seq<Entry>, n: nat, refuse: set<Ptr>)
    requires n <= |b|
    ensures var first := RunList(w, a, |a|, refuse);
            RunList(w, a + b, |a| + n, refuse) == if first.ok then RunList(first.world, b, n, refuse) else first
  {
    hide Statement;
    if n == 0 {
      RunPrefix(w, a, a + b, |a|, refuse);
    } else {
      RunJoined(w, a, b, n - 1, refuse);
      assert (a + b)[|a| + n - 1] == b[n - 1];
    }
  }

  lemma {:induction false} RunPrefix(w: World, a: seq<Entry>, b: seq<Entry>, n: nat, refuse: set<Ptr>)
    requires n <= |a| && n <= |b| && forall i | 0 <= i < n :: a[i] == b[i]
    ensures RunList(w, a, n, refuse) == RunList(w, b, n, refuse)
  {
    hide Statement;
    if n > 0 { RunPrefix(w, a, b, n - 1, refuse); }
  }

  lemma {:induction false} EventsJoined(mem: Memory, a: seq<Entry>, b: seq<Entry>, n: nat)
    requires n <= |b|
    ensures EventsOf(mem, a + b, |a| + n) == EventsOf(mem, a, |a|) + EventsOf(mem, b, n)
  {
    if n == 0 {
      EventsPrefix(mem, a, a + b, |a|);
    } else {
      EventsJoined(mem, a, b, n - 1);
    }
  }

  lemma {:induction false} EventsPrefix(mem: Memory, a: seq<Entry>, b: seq<Entry>, n: nat)
    requires n <= |a| && n <= |b| && forall i | 0 <= i < n :: a[i] == b[i]
    ensures EventsOf(mem, a, n) == EventsOf(mem, b, n)
  {
    if n > 0 { EventsPrefix(mem, a, b, n - 1); }
  }

  lemma {:induction false} PendingMember(es: seq<TrackedEntity>, state: EntityState, n: nat, i: nat)
    requires n <= |es| && i < |es| && forall a, b | 0 <= a < b < |es| :: es[a] != es[b]
    ensures es[i] in PendingOf(es, state, n) <==> i < n && es[i].state == state && !es[i].flushed
  {
    if n > 0 { PendingMember(es, state, n - 1, i); }
  }

  lemma AllEventsJoined(mem: Memory, a: seq<Entry>, m: seq<Entry>, d: seq<Entry>)
    ensures EventsOf(mem, a + m + d, |a + m + d|) == EventsOf(mem, a, |a|) + EventsOf(mem, m, |m|) + EventsOf(mem, d, |d|)
  {
    EventsJoined(mem, a, m, |m|);
    EventsJoined(mem, a + m, d, |d|);
  }

  /** What emitting the pending work of some records comes to. */
  predicate Emits(found: Contents, w: World, refuse: set<Ptr>, f: Flushed) {
    var work := Work(found.entries);
    && Ran(f.world, f.ok) == RunList(w, work, |work|, refuse)
    && f.tracked == (if f.ok then found.(entries := AllMarked(found.entries)) else found)
    && f.events == if f.ok then EventsOf(f.world.mem, work, |work|) else []
  }

  lemma EmitsIsFlush(t: Contents, w: World, refuse: set<Ptr>)
    ensures Emits(AfterDetect(t, w.mem), w, refuse, FlushAll(t, w, refuse))
  {
  }

  lemma EmitsOnce(found: Contents, w: World, refuse: set<Ptr>, f: Flushed, g: Flushed)
    requires Emits(found, w, refuse, f) && Emits(found, w, refuse, g)
    ensures f == g
  {
  }

  lemma Stopped(found: Contents, w: World, refuse: set<Ptr>, a: seq<Entry>, m: seq<Entry>, d: seq<Entry>, now: World, n: nat)
    requires n == |found.entries|
    requires a == Pending(found.entries, Added, n) && m == Pending(found.entries, Modified, n) && d == Pending(found.entries, Deleted, n)
    requires Ran(now, false) == RunList(w, a + m + d, |a + m + d|, refuse)
    ensures Emits(found, w, refuse, Flushed(found, now, [], false))
  {
  }

  lemma Completed(found: Contents, w: World, refuse: set<Ptr>, a: seq<Entry>, m: seq<Entry>, d: seq<Entry>, now: World, n: nat)
    requires n == |found.entries|
    requires a == Pending(found.entries, Added, n) && m == Pending(found.entries, Modified, n) && d == Pending(found.entries, Deleted, n)
    requires Ran(now, true) == RunList(w, a + m + d, |a + m + d|, refuse)
    ensures Emits(found, w, refuse,
                  Flushed(found.(entries := AllMarked(found.entries)), now, EventsOf(now.mem, a + m + d, |a + m + d|), true))
  {
  }

  class Session {
    const tracker: ChangeTracker
    var world: World
    var held: seq<int>
    var counter: nat
    var stack: seq<Mark>

    /** The transaction begins: the database marks where it stands. */
    constructor (world: World)
      ensures Valid() && fresh(tracker) && fresh(tracker.Repr)
      ensures State() == TxState(Contents([], map[]), world, [], 0, [BeginMark(world)])
    {
      tracker := new ChangeTracker();
      this.world, held, counter, stack := world, [], 0, [BeginMark(world)];
    }

    ghost predicate Valid()
      reads this, tracker
    {
      tracker.Valid()
    }

    ghost function State(): TxState
      reads this, tracker, tracker.Repr
      requires Valid()
    {
      TxState(tracker.Value(), world, held, counter, stack)
    }

    method RunStatements(list: seq<TrackedEntity>, refuse: set<Ptr>) returns (ok: bool)
      modifies this`world
      ensures Ran(world, ok) == RunList(old(world), RecordsOf(list), |list|, refuse)
    {
      ghost var records := RecordsOf(list);
      for i := 0 to |list|
        invariant Ran(world, true) == RunList(old(world), records, i, refuse)
      {
        assert records[i] == list[i].Record();
        match Statement(world, list[i].Record(), refuse)
        case None =>
          RunStops(old(world), records, i + 1, |list|, refuse);
          return false;
        case Some(next) => world := next;
      }
      ok := true;
    }

    lemma {:induction false} RunStops(w: World, work: seq<Entry>, n: nat, m: nat, refuse: set<Ptr>)
      requires n <= m <= |work| && !RunList(w, work, n, refuse).ok
      ensures RunList(w, work, m, refuse) == RunList(w, work, n, refuse)
    {
      if n < m { RunStops(w, work, n, m - 1, refuse); }
    }

    method MarkFlushed(list: seq<TrackedEntity>)
      modifies set te | te in list
      ensures forall te | te in list :: te.Record() == old(te.Record()).(flushed := true)
    {
      for i := 0 to |list|
        invariant forall te | te in list :: te.Record() == if te in list[..i] then old(te.Record()).(flushed := true) else old(te.Record())
      {
        list[i].flushed := true;
      }
    }

    /** The pending events of some records' entities, in order. */
    method CollectEvents(list: seq<TrackedEntity>) returns (events: seq<int>)
      ensures events == EventsOf(world.mem, RecordsOf(list), |list|)
    {
      events := [];
      for i := 0 to |list|
        invariant events == EventsOf(world.mem, RecordsOf(list), i)
      {
        events := events + At(world.mem, list[i].entity).events;
      }
    }

    /** The inserts, then the updates, then the deletes. */
    method RunAll(added: seq<TrackedEntity>, modified: seq<TrackedEntity>, deleted: seq<TrackedEntity>, refuse: set<Ptr>)
      returns (ok: bool)
      modifies this`world
      ensures var work := RecordsOf(added) + RecordsOf(modified) + RecordsOf(deleted);
              Ran(world, ok) == RunList(old(world), work, |work|, refuse)
    {
      ghost var a, m, d := RecordsOf(added), RecordsOf(modified), RecordsOf(deleted);
      RunJoined(world, a, m, |m|, refuse);
      RunJoined(world, a + m, d, |d|, refuse);
      RunStopped(world, a, m, d, refuse);
      hide RunList, RecordsOf;
      ok := RunStatements(added, refuse);
      if ok { ok := RunStatements(modified, refuse); }
      if ok { ok := RunStatements(deleted, refuse); }
    }

    lemma RunStopped(w: World, a: seq<Entry>, m: seq<Entry>, d: seq<Entry>, refuse: set<Ptr>)
      ensures !RunList(w, a, |a|, refuse).ok ==> RunList(w, a + m, |a + m|, refuse) == RunList(w, a, |a|, refuse)
    {
      RunJoined(w, a, m, |m|, refuse);
    }

    /** Marks every emitted record, and no other. */
    method MarkAll(added: seq<TrackedEntity>, modified: seq<TrackedEntity>, deleted: seq<TrackedEntity>)
      requires Valid()
      requires added == PendingOf(tracker.entities, Added, |tracker.entities|)
      requires modified == PendingOf(tracker.entities, Modified, |tracker.entities|)
      requires deleted == PendingOf(tracker.entities, Deleted, |tracker.entities|)
      modifies tracker.Repr
      ensures Valid() && tracker.Value() == old(tracker.Value()).(entries := AllMarked(old(tracker.Value()).entries))
    {
      ghost var es := tracker.entities;
      ghost var before := tracker.Records();
      var all := added + modified + deleted;
      Emitted(es);
      hide PendingOf, WellIndexed;
      MarkFlushed(all);
      forall i | 0 <= i < |es| ensures es[i].Record() == Marked(before[i]) { }
      assert tracker.Records() == AllMarked(before);
    }

    lemma Emitted(es: seq<TrackedEntity>)
      requires forall a, b | 0 <= a < b < |es| :: es[a] != es[b]
      ensures var all := PendingOf(es, Added, |es|) + PendingOf(es, Modified, |es|) + PendingOf(es, Deleted, |es|);
              && (forall te | te in all :: te in es)
              && forall i | 0 <= i < |es| :: es[i] in all <==> !es[i].flushed && !es[i].state.Unchanged?
    {
      PendingRecords(es, Added, |es|);
      PendingRecords(es, Modified, |es|);
      PendingRecords(es, Deleted, |es|);
      forall i | 0 <= i < |es|
        ensures es[i] in PendingOf(es, Added, |es|) + PendingOf(es, Modified, |es|) + PendingOf(es, Deleted, |es|) <==>
                !es[i].flushed && !es[i].state.Unchanged?
      {
        PendingMember(es, Added, |es|, i);
        PendingMember(es, Modified, |es|, i);
        PendingMember(es, Deleted, |es|, i);
        hide PendingOf;
      }
    }

    method CollectAll(added: seq<TrackedEntity>, modified: seq<TrackedEntity>, deleted: seq<TrackedEntity>) returns (events: seq<int>)
      ensures var work := RecordsOf(added) + RecordsOf(modified) + RecordsOf(deleted);
              events == EventsOf(world.mem, work, |work|)
    {
      ghost var a, m, d := RecordsOf(added), RecordsOf(modified), RecordsOf(deleted);
      hide EventsOf, RecordsOf;
      AllEventsJoined(world.mem, a, m, d);
      var first := CollectEvents(added);
      var second := CollectEvents(modified);
      var third := CollectEvents(deleted);
      events := first + second + third;
    }

    /** The events of what was emitted, and the marks. */
    method Finish(added: seq<TrackedEntity>, modified: seq<TrackedEntity>, deleted: seq<TrackedEntity>) returns (events: seq<int>)
      requires Valid()
      requires added == PendingOf(tracker.entities, Added, |tracker.entities|)
      requires modified == PendingOf(tracker.entities, Modified, |tracker.entities|)
      requires deleted == PendingOf(tracker.entities, Deleted, |tracker.entities|)
      modifies tracker.Repr
      ensures Valid() && tracker.Value() == old(tracker.Value()).(entries := AllMarked(old(tracker.Value()).entries))
      ensures var work := old(RecordsOf(added) + RecordsOf(modified) + RecordsOf(deleted));
              events == EventsOf(world.mem, work, |work|)
    {
      hide EventsOf, AllMarked, RecordsOf, PendingOf, WellIndexed, SlotsOf;
      events := CollectAll(added, modified, deleted);
      MarkAll(added, modified, deleted);
    }

    /** Emits what detection found. */
    method Emit(ghost found: Contents, ghost before: World, refuse: set<Ptr>) returns (events: seq<int>, ok: bool)
      requires Valid() && tracker.Value() == found && world == before
      modifies this`world, tracker.Repr
      ensures Valid() && Emits(found, before, refuse, Flushed(tracker.Value(), world, events, ok))
    {
      hide RunList, EventsOf, AllMarked, RecordsOf, Work, Pending, PendingOf, WellIndexed, SlotsOf, Emits;
      var added, modified, deleted := tracker.GetPendingChanges();
      ghost var a, m, d := RecordsOf(added), RecordsOf(modified), RecordsOf(deleted);
      ghost var n := |tracker.entities|;
      SameTracker(found);
      ok := RunAll(added, modified, deleted, refuse);
      if !ok {
        events := [];
        Stopped(found, before, refuse, a, m, d, world, n);
      } else {
        assert Valid() && tracker.Value() == found;
        events := Finish(added, modified, deleted);
        Completed(found, before, refuse, a, m, d, world, n);
      }
    }

    lemma SameTracker(found: Contents)
      requires Valid() && tracker.Value() == found
      ensures |tracker.entities| == |found.entries|
    {
    }

    method FlushChanges(refuse: set<Ptr>) returns (events: seq<int>, ok: bool)
      requires Valid()
      modifies this`world, tracker.Repr
      ensures Valid()
      ensures Flushed(tracker.Value(), world, events, ok) == FlushAll(old(tracker.Value()), old(world), refuse)
    {
      hide RunList, EventsOf, AllMarked, RecordsOf, Work, Pending, PendingOf, WellIndexed, SlotsOf, Emits, AfterDetect, FlushAll;
      EmitsIsFlush(tracker.Value(), world, refuse);
      ghost var t, w := tracker.Value(), world;
      tracker.DetectChanges(world.mem);
      events, ok := Emit(AfterDetect(t, w.mem), w, refuse);
      EmitsOnce(AfterDetect(t, w.mem), w, refuse, Flushed(tracker.Value(), world, events, ok), FlushAll(t, w, refuse));
    }

    method SaveChanges(ghost s: TxState, refuse: set<Ptr>) returns (outcome: Outcome)
      requires Valid() && State() == s
      modifies this, tracker.Repr
      ensures Valid() && tracker.Repr == old(tracker.Repr)
      ensures Result(State(), outcome) == AfterSave(s, refuse)
    {
      hide FlushAll, WellIndexed, SlotsOf, RecordsOf;
      var events, ok := FlushChanges(refuse);
      held := held + events;
      outcome := if ok then Done else Failed;
    }

    /** The operations that touch only memory, rows or the tracker. */
    method Perform(ghost s: TxState, op: Op)
      requires Valid() && State() == s && !op.Savepoint? && !op.SaveChanges?
      modifies this, tracker, tracker.Repr
      ensures Valid() && fresh(tracker.Repr - old(tracker.Repr)) && old(tracker.Repr) <= tracker.Repr
      ensures State() == Simple(s, op)
    {
      hide WellIndexed, SlotsOf, RecordsOf, AfterTrack, AfterMarkAdded, AfterAttach, AfterDetach, AfterRemove, AfterHardRemove;
      match op
      case Load(p, row) =>
        var known := tracker.Contains(p);
        if !known {
          world := world.(mem := world.mem[p := row]);
          var canonical := tracker.Track(p, SnapshotOf(world.mem, p), world.mem);
        }
      case Add(p, generated) =>
        var known := tracker.Contains(p);
        if !known {
          world := world.(mem := Stamped(world.mem, p, generated));
          tracker.MarkAdded(p, world.mem);
        }
      case AttachAs(p, state) => tracker.Attach(p, state, world.mem);
      case DetachIt(p) => tracker.Detach(p, world.mem);
      case Remove(p) => var ok := tracker.MarkDeleted(p, world.mem);
      case HardRemove(p) => var ok := tracker.MarkHardDeleted(p);
      case Assign(p, fields) => world := world.(mem := world.mem[p := At(world.mem, p).(fields := fields)]);
      case Raise(p, event) => world := world.(mem := world.mem[p := At(world.mem, p).(events := At(world.mem, p).events + [event])]);
      case RawSql(rows) => world := world.(rows := rows);
    }

    method FindSavepoint(name: Name) returns (at: Option<nat>)
      ensures at == Found(stack, name)
    {
      var i: nat := |stack|;
      while i > 0
        invariant i <= |stack| && FindMark(stack, name, i) == Found(stack, name)
      {
        i := i - 1;
        if stack[i].name == name { return Some(i); }
      }
      at := None;
    }

    method RestoreTracker(ghost s: TxState, ghost now: TxState, saved: Saved, savedEvents: nat)
      requires Valid() && State() == now && tracker.Savable(saved)
      requires saved.Entries() == s.tracked.entries && savedEvents == |s.held|
      modifies this`held, tracker, tracker.Repr
      ensures Valid() && tracker.Repr == old(tracker.Repr)
      ensures State() == now.(tracked := AfterRestore(s.tracked.entries, now.world.mem), held := Truncated(now.held, |s.held|))
    {
      hide WellIndexed, SlotsOf, RecordsOf, Reindexed;
      tracker.Restore(saved, world.mem);
      if savedEvents <= |held| { held := held[..savedEvents]; }
    }

    method RewindSavepoint(ghost s: TxState, ghost now: TxState, name: Name, saved: Saved, savedEvents: nat, faults: Faults)
      returns (outcome: Outcome)
      requires Valid() && State() == now && tracker.Savable(saved)
      requires saved.Entries() == s.tracked.entries && savedEvents == |s.held|
      modifies this, tracker, tracker.Repr
      ensures Valid() && tracker.Repr == old(tracker.Repr)
      ensures Result(State(), outcome) == Rewind(s, now, name, faults)
    {
      hide WellIndexed, SlotsOf, RecordsOf, Reindexed, AfterRestore, Found, Truncated;
      var at := FindSavepoint(name);
      if faults.rewinding || at.None? { return RewindFailed; }
      world := world.(rows := stack[at.value].rows, outbox := stack[at.value].outbox);
      stack := stack[..at.value + 1];
      if !faults.releasing { stack := stack[..at.value]; }
      ghost var rewound := now.(world := world, stack := stack);
      RestoreTracker(s, rewound, saved, savedEvents);
      outcome := Rewound;
    }

    method ReleaseSavepoint(ghost s: TxState, ghost now: TxState, name: Name, saved: Saved, savedEvents: nat, faults: Faults)
      returns (outcome: Outcome)
      requires Valid() && State() == now && tracker.Savable(saved)
      requires saved.Entries() == s.tracked.entries && savedEvents == |s.held|
      modifies this, tracker, tracker.Repr
      ensures Valid() && tracker.Repr == old(tracker.Repr)
      ensures Result(State(), outcome) == Release(s, now, name, faults)
    {
      hide WellIndexed, SlotsOf, RecordsOf, Reindexed, AfterRestore, Found, Truncated;
      var at := FindSavepoint(name);
      if faults.releasing || at.None? {
        RestoreTracker(s, now, saved, savedEvents);
        return ReleaseFailed;
      }
      stack := stack[..at.value];
      outcome := Done;
    }

    method Execute(ghost s: TxState, op: Op) returns (outcome: Outcome)
      requires Valid() && State() == s
      modifies this, tracker, tracker.Repr
      ensures Valid() && fresh(tracker.Repr - old(tracker.Repr)) && old(tracker.Repr) <= tracker.Repr
      ensures Result(State(), outcome) == Exec(s, op)
      decreases op, 1
    {
      hide AfterSave, Rewind, Release, ExecAll, Simple, WellIndexed, SlotsOf, RecordsOf;
      match op
      case SaveChanges(refuse) => outcome := SaveChanges(s, refuse);
      case Savepoint(base, body, fails, refuse, faults) => outcome := RunSavepoint(s, op);
      case _ =>
        Perform(s, op);
        outcome := Done;
    }

    method RunSavepoint(ghost s: TxState, op: Op) returns (outcome: Outcome)
      requires Valid() && State() == s && op.Savepoint?
      modifies this, tracker, tracker.Repr
      ensures Valid() && fresh(tracker.Repr - old(tracker.Repr)) && old(tracker.Repr) <= tracker.Repr
      ensures Result(State(), outcome) == Exec(s, op)
      decreases op, 0
    {
      counter := counter + 1;
      var name := Name(op.base, counter);
      var saved := tracker.Save();
      var savedEvents := |held|;
      if op.faults.opening { return Failed; }
      hide AfterSave, Rewind, Release, ExecAll, EndOf, WellIndexed, SlotsOf, RecordsOf;
      stack := stack + [Mark(name, world.rows, world.outbox)];
      ExecuteAll(Opened(s, op.base), op.body);
      outcome := EndSavepoint(s, ExecAll(Opened(s, op.base), op.body), op, name, saved, savedEvents);
    }

    /** After the body: a flush and a release, or back to the mark. */
    method EndSavepoint(ghost s: TxState, ghost inner: TxState, op: Op, name: Name, saved: Saved, savedEvents: nat)
      returns (outcome: Outcome)
      requires Valid() && State() == inner && op.Savepoint? && name == Name(op.base, s.counter + 1)
      requires tracker.Savable(saved) && saved.Entries() == s.tracked.entries && savedEvents == |s.held|
      modifies this, tracker, tracker.Repr
      ensures Valid() && tracker.Repr == old(tracker.Repr)
      ensures Result(State(), outcome) == EndOf(s, op, inner)
    {
      hide AfterSave, Rewind, Release, WellIndexed, SlotsOf, RecordsOf;
      if op.fails {
        outcome := RewindSavepoint(s, inner, name, saved, savedEvents, op.faults);
        return;
      }
      outcome := SaveChanges(inner, op.refuse);
      ghost var flushed := AfterSave(inner, op.refuse).tx;
      if outcome.Failed? {
        outcome := RewindSavepoint(s, flushed, name, saved, savedEvents, op.faults);
      } else {
        outcome := ReleaseSavepoint(s, flushed, name, saved, savedEvents, op.faults);
      }
    }

    /** A sink inserts some of the events, one statement for each. */
    method Write(events: seq<int>, n: nat)
      requires Valid() && n <= |events|
      modifies this`world
      ensures Valid() && world == old(world).(outbox := old(world).outbox + events[..n])
    {
      ghost var before := world;
      for i := 0 to n
        invariant world == before.(outbox := before.outbox + events[..i])
      {
        world := world.(outbox := world.outbox + [events[i]]);
      }
    }

    method RollBack()
      requires Valid()
      modifies this`world, this`stack
      ensures Valid() && State() == Rollback(old(State()))
    {
      hide WellIndexed, SlotsOf, RecordsOf;
      if stack != [] {
        world := world.(rows := stack[0].rows, outbox := stack[0].outbox);
        stack := [];
      }
    }

    method ExecuteAll(ghost s: TxState, ops: seq<Op>)
      requires Valid() && State() == s
      modifies this, tracker, tracker.Repr
      ensures Valid() && fresh(tracker.Repr - old(tracker.Repr)) && old(tracker.Repr) <= tracker.Repr
      ensures State() == ExecAll(s, ops)
      decreases ops, 0
    {
      hide Exec, WellIndexed, SlotsOf, RecordsOf;
      if ops != [] {
        var outcome := Execute(s, ops[0]);
        ExecuteAll(Exec(s, ops[0]).tx, ops[1..]);
      }
    }
  }
}
