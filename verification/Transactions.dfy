/** A whole transaction. */
module Transactions {
  // A whole transaction: the body, the flush, the before-commit hooks, their flush, the sinks, the commit, the dispatch.

  import opened Tracking
  import opened Flush
  import opened Savepoints
  import opened EventAccounting
  import opened Sessions

  /** A before-commit hook may stage changes through the transaction; it may also fail. */
  datatype Hook = Hook(ops: seq<Op>, fails: bool)

  /** An event sink inserts rows for the events one by one; one that fails stops short of the last. */
  datatype Sink = Sink(written: nat, fails: bool)

  datatype Plan = Plan(body: seq<Op>, fails: bool, refuse: set<Ptr>, hooks: seq<Hook>, refuseLater: set<Ptr>, sinks: seq<Sink>, commitFails: bool)

  /** The committed rows, what event sinks wrote beside them, and what after-commit hooks were told. */
  datatype Store = Store(rows: Rows, outbox: seq<int>, dispatched: seq<int>)

  datatype End = End(store: Store, tracked: Contents, ok: bool)

  function Opening(store: Store, nextKey: int, mem: Memory): World { World(store.rows, nextKey, mem, store.outbox) }

  function Begin(store: Store, nextKey: int, mem: Memory): TxState {
    TxState(Contents([], map[]), Opening(store, nextKey, mem), [], 0, [BeginMark(Opening(store, nextKey, mem))])
  }

  datatype HooksRun = HooksRun(tx: TxState, ok: bool)

  function RunHooks(s: TxState, hooks: seq<Hook>): HooksRun
    decreases |hooks|
  {
    if hooks == [] then HooksRun(s, true)
    else if hooks[0].fails then HooksRun(ExecAll(s, hooks[0].ops), false)
    else RunHooks(ExecAll(s, hooks[0].ops), hooks[1..])
  }

  /** The transaction's own flushes: everything pending is flushed, and its events are not among the held ones. */
  function FlushOnly(s: TxState, refuse: set<Ptr>): TxState { AfterSave(s, refuse).tx.(held := s.held) }

  /** The events of a flush. */
  function NewEvents(s: TxState, refuse: set<Ptr>): seq<int> { FlushAll(s.tracked, s.world, refuse).events }

  /** The list that sinks and after-commit hooks are given. */
  function AllEvents(s: TxState, plan: Plan): seq<int> {
    s.held + NewEvents(s, plan.refuse) + NewEvents(RunHooks(FlushOnly(s, plan.refuse), plan.hooks).tx, plan.refuseLater)
  }

  function Written(sink: Sink, events: seq<int>): nat { if sink.fails && sink.written <= |events| then sink.written else |events| }

  datatype SinksRun = SinksRun(tx: TxState, ok: bool)

  function RunSinks(s: TxState, sinks: seq<Sink>, events: seq<int>): SinksRun
    decreases |sinks|
  {
    if sinks == [] then SinksRun(s, true)
    else
      var next := s.(world := s.world.(outbox := s.world.outbox + events[..Written(sinks[0], events)]));
      if sinks[0].fails then SinksRun(next, false) else RunSinks(next, sinks[1..], events)
  }

  /** A transaction when its function returns: whatever it wrote is in its own world, and open unless it committed. */
  datatype Attempt = Attempt(tx: TxState, told: seq<int>, ok: bool)

  function GivenUp(s: TxState): Attempt { Attempt(s.(tracked := s.tracked.(entries := Unflushed(s.tracked.entries))), [], false) }

  /** From the end of the hooks: their flush, the sinks, the commit and the dispatch. */
  function Committed(hooked: TxState, plan: Plan, early: seq<int>): Attempt {
    var last := AfterSave(hooked, plan.refuseLater);
    if last.outcome.Failed? then GivenUp(last.tx)
    else
      var events := early + NewEvents(hooked, plan.refuseLater);
      var sunk := RunSinks(FlushOnly(hooked, plan.refuseLater), plan.sinks, events);
      if !sunk.ok || plan.commitFails then GivenUp(sunk.tx)
      else Attempt(sunk.tx.(tracked := AfterCommit(sunk.tx.tracked, sunk.tx.world.mem, |sunk.tx.tracked.entries|), stack := []), events, true)
  }

  /** From the end of the body: the flush and the hooks, then the rest. */
  function Finished(done: TxState, plan: Plan): Attempt {
    var main := AfterSave(done, plan.refuse);
    if main.outcome.Failed? then GivenUp(main.tx)
    else
      var hooked := RunHooks(FlushOnly(done, plan.refuse), plan.hooks);
      if !hooked.ok then GivenUp(hooked.tx)
      else Committed(hooked.tx, plan, done.held + NewEvents(done, plan.refuse))
  }

  function Attempted(start: TxState, plan: Plan): Attempt {
    var done := ExecAll(start, plan.body);
    if plan.fails then Attempt(done, [], false) else Finished(done, plan)
  }

  /** An error rolls back on the way out. */
  function Deferred(a: Attempt): TxState { if a.ok then a.tx else Rollback(a.tx) }

  function Transaction(store: Store, nextKey: int, mem: Memory, plan: Plan): End {
    var a := Attempted(Begin(store, nextKey, mem), plan);
    var left := Deferred(a);
    End(Store(left.world.rows, left.world.outbox, store.dispatched + a.told), left.tracked, a.ok)
  }

  // ---- All or nothing -----------------------------------------------------------------------

  lemma {:induction false} HooksExtend(s: TxState, hooks: seq<Hook>)
    requires Numbered(s)
    ensures Numbered(RunHooks(s, hooks).tx) && Extends(s, RunHooks(s, hooks).tx)
    decreases |hooks|
  {
    if hooks == [] {
    } else {
      var next := ExecAll(s, hooks[0].ops);
      ExecAllExtends(s, hooks[0].ops);
      hide Numbered, Extends, ExecAll;
      if !hooks[0].fails {
        HooksExtend(next, hooks[1..]);
        ExtendsTwice(s, next, RunHooks(next, hooks[1..]).tx);
      }
    }
  }

  lemma {:induction false} SinksExtend(s: TxState, sinks: seq<Sink>, events: seq<int>)
    requires Numbered(s)
    ensures Numbered(RunSinks(s, sinks, events).tx) && Extends(s, RunSinks(s, sinks, events).tx)
    ensures RunSinks(s, sinks, events).tx == s.(world := s.world.(outbox := RunSinks(s, sinks, events).tx.world.outbox))
    decreases |sinks|
  {
    if sinks != [] && !sinks[0].fails {
      SinksExtend(s.(world := s.world.(outbox := s.world.outbox + events[..Written(sinks[0], events)])), sinks[1..], events);
    }
  }

  lemma FlushOnlyExtends(s: TxState, refuse: set<Ptr>)
    requires Numbered(s)
    ensures Numbered(FlushOnly(s, refuse)) && Extends(s, FlushOnly(s, refuse))
  {
    SavedExtends(s, refuse);
    hide AfterSave;
  }

  lemma CommittedExtends(s: TxState, plan: Plan, early: seq<int>)
    requires Numbered(s) && !Committed(s, plan, early).ok
    ensures Extends(s, Committed(s, plan, early).tx)
  {
    var last := FlushOnly(s, plan.refuseLater);
    SavedExtends(s, plan.refuseLater);
    FlushOnlyExtends(s, plan.refuseLater);
    hide AfterSave, Numbered, FlushOnly;
    SinksExtend(last, plan.sinks, early + NewEvents(s, plan.refuseLater));
    ExtendsTwice(s, last, RunSinks(last, plan.sinks, early + NewEvents(s, plan.refuseLater)).tx);
    hide RunSinks;
  }

  /** Whatever body, hooks and sinks did, and wherever they failed, the mark of the beginning is the lowest one still. */
  lemma MarkOutlivesAll(start: TxState, plan: Plan)
    requires Numbered(start) && !Attempted(start, plan).ok
    ensures Extends(start, Attempted(start, plan).tx)
  {
    var done := ExecAll(start, plan.body);
    ExecAllExtends(start, plan.body);
    if !plan.fails {
      var seen := FlushOnly(done, plan.refuse);
      SavedExtends(done, plan.refuse);
      FlushOnlyExtends(done, plan.refuse);
      HooksExtend(seen, plan.hooks);
      var hooked := RunHooks(seen, plan.hooks);
      ExtendsTwice(start, done, AfterSave(done, plan.refuse).tx);
      ExtendsTwice(start, done, seen);
      ExtendsTwice(start, seen, hooked.tx);
      var early := done.held + NewEvents(done, plan.refuse);
      hide Numbered, Extends, ExecAll, AfterSave, RunHooks, FlushOnly, Committed;
      if hooked.ok && !Committed(hooked.tx, plan, early).ok {
        CommittedExtends(hooked.tx, plan, early);
        ExtendsTwice(start, hooked.tx, Committed(hooked.tx, plan, early).tx);
      }
      GivenUpExtends(start, AfterSave(done, plan.refuse).tx);
      GivenUpExtends(start, hooked.tx);
    }
  }

  lemma GivenUpExtends(start: TxState, s: TxState)
    ensures Extends(start, GivenUp(s).tx) == Extends(start, s)
  {
  }

  /** The tables other than the outbox are not the outbox: programs leave it, and every mark has it as it is. */
  ghost predicate Quiet(s: TxState, outbox: seq<int>) {
    s.world.outbox == outbox && forall i | 0 <= i < |s.stack| :: s.stack[i].outbox == outbox
  }

  lemma SavedQuiet(s: TxState, refuse: set<Ptr>, outbox: seq<int>)
    requires Quiet(s, outbox)
    ensures Quiet(AfterSave(s, refuse).tx, outbox)
  {
    var work := Work(AfterDetect(s.tracked, s.world.mem).entries);
    RunQuiet(s.world, work, |work|, refuse);
    hide RunList, Work, AfterDetect;
  }

  lemma {:induction false} RunQuiet(w: World, work: seq<Entry>, n: nat, refuse: set<Ptr>)
    requires n <= |work|
    ensures RunList(w, work, n, refuse).world.outbox == w.outbox
  {
    if n > 0 { RunQuiet(w, work, n - 1, refuse); }
  }

  lemma EndQuiet(s: TxState, now: TxState, name: Name, faults: Faults, outbox: seq<int>)
    requires Quiet(now, outbox)
    ensures Quiet(Rewind(s, now, name, faults).tx, outbox) && Quiet(Release(s, now, name, faults).tx, outbox)
  {
    hide Found, AfterRestore;
  }

  lemma {:induction false} ExecQuiet(s: TxState, op: Op, outbox: seq<int>)
    requires Quiet(s, outbox)
    ensures Quiet(Exec(s, op).tx, outbox)
    decreases op, 1
  {
    hide AfterSave, Rewind, Release, ExecAll;
    if op.SaveChanges? {
      SavedQuiet(s, op.refuse, outbox);
    } else if op.Savepoint? && !op.faults.opening {
      var inner, name := ExecAll(Opened(s, op.base), op.body), Name(op.base, s.counter + 1);
      ExecAllQuiet(Opened(s, op.base), op.body, outbox);
      SavepointEnds(s, op);
      SavedQuiet(inner, op.refuse, outbox);
      EndQuiet(s, inner, name, op.faults, outbox);
      EndQuiet(s, AfterSave(inner, op.refuse).tx, name, op.faults, outbox);
      hide Quiet;
    }
  }

  lemma {:induction false} ExecAllQuiet(s: TxState, ops: seq<Op>, outbox: seq<int>)
    requires Quiet(s, outbox)
    ensures Quiet(ExecAll(s, ops), outbox)
    decreases ops, 0
  {
    hide Quiet, Exec;
    if ops != [] {
      ExecQuiet(s, ops[0], outbox);
      ExecAllQuiet(Exec(s, ops[0]).tx, ops[1..], outbox);
    }
  }

  lemma {:induction false} HooksQuiet(s: TxState, hooks: seq<Hook>, outbox: seq<int>)
    requires Quiet(s, outbox)
    ensures Quiet(RunHooks(s, hooks).tx, outbox)
    decreases |hooks|
  {
    hide Quiet, ExecAll;
    if hooks != [] {
      ExecAllQuiet(s, hooks[0].ops, outbox);
      if !hooks[0].fails { HooksQuiet(ExecAll(s, hooks[0].ops), hooks[1..], outbox); }
    }
  }

  function Times(events: seq<int>, n: nat): seq<int> { if n == 0 then [] else events + Times(events, n - 1) }

  lemma {:induction false} SinksWrite(s: TxState, sinks: seq<Sink>, events: seq<int>)
    requires RunSinks(s, sinks, events).ok
    ensures RunSinks(s, sinks, events).tx.world.outbox == s.world.outbox + Times(events, |sinks|)
    decreases |sinks|
  {
    if sinks != [] {
      assert events[..|events|] == events;
      SinksWrite(s.(world := s.world.(outbox := s.world.outbox + events)), sinks[1..], events);
      assert s.world.outbox + events + Times(events, |sinks| - 1) == s.world.outbox + Times(events, |sinks|);
    }
  }

  /** Each sink of a committed transaction wrote every event the after-commit hooks are told, once. */
  lemma CommittedTells(start: TxState, plan: Plan, outbox: seq<int>)
    requires Quiet(start, outbox) && Attempted(start, plan).ok
    ensures Attempted(start, plan).tx.world.outbox == outbox + Times(Attempted(start, plan).told, |plan.sinks|)
    ensures Attempted(start, plan).told == AllEvents(ExecAll(start, plan.body), plan)
  {
    var done := ExecAll(start, plan.body);
    var seen := FlushOnly(done, plan.refuse);
    var hooked := RunHooks(seen, plan.hooks).tx;
    var last, events := FlushOnly(hooked, plan.refuseLater), AllEvents(done, plan);
    ExecAllQuiet(start, plan.body, outbox);
    SavedQuiet(done, plan.refuse, outbox);
    HooksQuiet(seen, plan.hooks, outbox);
    SavedQuiet(hooked, plan.refuseLater, outbox);
    hide ExecAll, AfterSave, RunHooks, RunSinks, AfterCommit, NewEvents;
    SinksWrite(last, plan.sinks, events);
  }

  /**
   * All or nothing. A transaction that returns an error, from whatever statement of its body, flushes, hooks, sinks or commit, leaves
   * the tables as they were and tells no after-commit hook; one that commits has every sink store every event the hooks are told.
   */
  lemma FailedTransactionIsNothing(store: Store, nextKey: int, mem: Memory, plan: Plan)
    ensures var end := Transaction(store, nextKey, mem, plan);
            var told := AllEvents(ExecAll(Begin(store, nextKey, mem), plan.body), plan);
            && (!end.ok ==> end.store == store)
            && (end.ok ==> end.store.outbox == store.outbox + Times(told, |plan.sinks|) && end.store.dispatched == store.dispatched + told)
  {
    var start := Begin(store, nextKey, mem);
    hide Attempted, ExecAll, AllEvents;
    if Attempted(start, plan).ok {
      CommittedTells(start, plan, store.outbox);
    } else {
      MarkOutlivesAll(start, plan);
      assert Attempted(start, plan).tx.stack[0] == start.stack[0];
      GivesNothing(start, plan);
      assert store.dispatched + [] == store.dispatched;
    }
  }

  lemma GivesNothing(start: TxState, plan: Plan)
    requires !Attempted(start, plan).ok
    ensures Attempted(start, plan).told == []
  {
    hide ExecAll, AfterSave, RunHooks, RunSinks, NewEvents, FlushOnly;
  }

  /**
   * What the tracker holds when the transaction returns: nothing is marked as sent after a commit, and nothing after a failure from
   * the first flush on, so that a retry sends it again; a body that fails leaves its marks.
   */
  lemma NothingStaysMarked(store: Store, nextKey: int, mem: Memory, plan: Plan)
    ensures var end := Transaction(store, nextKey, mem, plan);
            && (!plan.fails ==> forall e | e in end.tracked.entries :: !e.flushed)
            && (end.ok ==> forall e | e in end.tracked.entries :: e.state.Unchanged?)
            && (plan.fails ==> !end.ok && end.tracked == ExecAll(Begin(store, nextKey, mem), plan.body).tracked)
  {
    var done := ExecAll(Begin(store, nextKey, mem), plan.body);
    var hooked := RunHooks(FlushOnly(done, plan.refuse), plan.hooks).tx;
    FromHooksUnmarked(hooked, plan, done.held + NewEvents(done, plan.refuse));
    hide ExecAll, AfterSave, RunHooks, FlushOnly, NewEvents, Begin, Committed;
  }

  lemma FromHooksUnmarked(hooked: TxState, plan: Plan, early: seq<int>)
    ensures var a := Committed(hooked, plan, early);
            && (forall e | e in a.tx.tracked.entries :: !e.flushed) && (a.ok ==> forall e | e in a.tx.tracked.entries :: e.state.Unchanged?)
  {
    var last, events := FlushOnly(hooked, plan.refuseLater), early + NewEvents(hooked, plan.refuseLater);
    SinksTrack(last, plan.sinks, events);
    AllSettled(last.tracked, RunSinks(last, plan.sinks, events).tx.world.mem, |last.tracked.entries|);
    hide AfterSave, FlushOnly, NewEvents, AfterCommit, RunSinks;
  }

  lemma {:induction false} SinksTrack(s: TxState, sinks: seq<Sink>, events: seq<int>)
    ensures RunSinks(s, sinks, events).tx.tracked == s.tracked
    decreases |sinks|
  {
    if sinks != [] && !sinks[0].fails {
      SinksTrack(s.(world := s.world.(outbox := s.world.outbox + events[..Written(sinks[0], events)])), sinks[1..], events);
    }
  }

  lemma {:induction false} AllSettled(t: Contents, mem: Memory, n: nat)
    requires n <= |t.entries|
    ensures forall e | e in AfterCommit(t, mem, n).entries :: e.state.Unchanged? && !e.flushed
  {
    if n > 0 { AllSettled(t, mem, n - 1); }
  }

  // ---- Held events do not steer a program ---------------------------------------------------

  function Shift(s: TxState, pre: seq<int>): TxState { s.(held := pre + s.held) }

  lemma ShiftEnds(s: TxState, now: TxState, base: string, faults: Faults, pre: seq<int>)
    requires s.held <= now.held
    ensures var name := Name(base, s.counter + 1);
            && Rewind(Shift(s, pre), Shift(now, pre), name, faults) ==
               Result(Shift(Rewind(s, now, name, faults).tx, pre), Rewind(s, now, name, faults).outcome)
            && Release(Shift(s, pre), Shift(now, pre), name, faults) ==
               Result(Shift(Release(s, now, name, faults).tx, pre), Release(s, now, name, faults).outcome)
  {
    assert (pre + now.held)[..|pre + s.held|] == pre + now.held[..|s.held|];
    hide Found;
  }

  lemma ShiftSave(s: TxState, refuse: set<Ptr>, pre: seq<int>)
    ensures AfterSave(Shift(s, pre), refuse) == Result(Shift(AfterSave(s, refuse).tx, pre), AfterSave(s, refuse).outcome)
  {
    hide FlushAll;
  }

  lemma {:induction false} ExecShift(s: TxState, op: Op, pre: seq<int>)
    requires Numbered(s)
    ensures Exec(Shift(s, pre), op) == Result(Shift(Exec(s, op).tx, pre), Exec(s, op).outcome)
    decreases op, 1
  {
    hide Numbered, Simple, AfterSave, ExecAll, EndOf;
    if op.SaveChanges? {
      ShiftSave(s, op.refuse, pre);
    } else if op.Savepoint? && !op.faults.opening {
      OpenedExtends(s, op.base);
      ExecAllShift(Opened(s, op.base), op.body, pre);
      ExecAllExtends(Opened(s, op.base), op.body);
      EndShift(s, op, pre, ExecAll(Opened(s, op.base), op.body));
    } else if !op.Savepoint? {
      SimpleShift(s, op, pre);
    }
  }

  lemma SimpleShift(s: TxState, op: Op, pre: seq<int>)
    requires !op.SaveChanges? && !op.Savepoint?
    ensures Simple(Shift(s, pre), op) == Shift(Simple(s, op), pre)
  {
  }

  lemma EndShift(s: TxState, op: Op, pre: seq<int>, inner: TxState)
    requires op.Savepoint? && s.held <= inner.held
    ensures EndOf(Shift(s, pre), op, Shift(inner, pre)) == Result(Shift(EndOf(s, op, inner).tx, pre), EndOf(s, op, inner).outcome)
  {
    SavedHolds(inner, op.refuse);
    ShiftSave(inner, op.refuse, pre);
    ShiftEnds(s, inner, op.base, op.faults, pre);
    ShiftEnds(s, AfterSave(inner, op.refuse).tx, op.base, op.faults, pre);
    hide AfterSave, Rewind, Release;
  }

  lemma SavedHolds(s: TxState, refuse: set<Ptr>)
    ensures s.held <= AfterSave(s, refuse).tx.held
  {
    hide FlushAll;
  }

  lemma {:induction false} ExecAllShift(s: TxState, ops: seq<Op>, pre: seq<int>)
    requires Numbered(s)
    ensures ExecAll(Shift(s, pre), ops) == Shift(ExecAll(s, ops), pre)
    decreases ops, 0
  {
    hide Exec, Numbered;
    if ops != [] {
      ExecShift(s, ops[0], pre);
      ExecExtends(s, ops[0]);
      ExecAllShift(Exec(s, ops[0]).tx, ops[1..], pre);
    }
  }

  lemma {:induction false} RunHooksShift(s: TxState, hooks: seq<Hook>, pre: seq<int>)
    requires Numbered(s)
    ensures RunHooks(Shift(s, pre), hooks) == HooksRun(Shift(RunHooks(s, hooks).tx, pre), RunHooks(s, hooks).ok)
    decreases |hooks|
  {
    hide ExecAll, Numbered;
    if hooks != [] {
      ExecAllShift(s, hooks[0].ops, pre);
      ExecAllExtends(s, hooks[0].ops);
      RunHooksShift(ExecAll(s, hooks[0].ops), hooks[1..], pre);
    }
  }

  // ---- What is delivered --------------------------------------------------------------------

  /** The program of a hook list, and what it keeps. */
  ghost predicate CalmHooks(s: TxState, hooks: seq<Hook>)
    decreases |hooks|
  {
    hooks == [] ||
    (SteadyAll(s, hooks[0].ops) && UndisturbedAll(s, hooks[0].ops) && CalmHooks(ExecAll(s, hooks[0].ops), hooks[1..]))
  }

  function HooksLog(s: TxState, hooks: seq<Hook>, log: seq<Ptr>): seq<Ptr>
    decreases |hooks|
  {
    if hooks == [] then log else HooksLog(ExecAll(s, hooks[0].ops), hooks[1..], LogOfAll(s, hooks[0].ops, log))
  }

  lemma {:induction false} HooksExact(s: TxState, hooks: seq<Hook>, log: seq<Ptr>)
    requires Good(s) && CalmHooks(s, hooks) && Exact(s, log) && RunHooks(s, hooks).ok
    ensures Good(RunHooks(s, hooks).tx) && Exact(RunHooks(s, hooks).tx, HooksLog(s, hooks, log))
    decreases |hooks|
  {
    hide Good, Exact, ExecAll, LogOfAll, SteadyAll, UndisturbedAll;
    if hooks != [] {
      ExecAllExact(s, hooks[0].ops, log);
      HooksExact(ExecAll(s, hooks[0].ops), hooks[1..], LogOfAll(s, hooks[0].ops, log));
    }
  }

  /** Body and hooks never remove, detach or add events to a flushed entity, and set no generated key by hand. */
  ghost predicate Calm(store: Store, nextKey: int, mem: Memory, plan: Plan) {
    var start := Begin(store, nextKey, mem);
    var done := ExecAll(start, plan.body);
    && SteadyAll(start, plan.body) && UndisturbedAll(start, plan.body)
    && FreshKeys(done.tracked.entries, done.world.mem)
    && CalmHooks(AfterSave(done, plan.refuse).tx, plan.hooks)
  }

  /** Every entity flushed by the end of the transaction, in the order of its flush. */
  function FlushedBy(store: Store, nextKey: int, mem: Memory, plan: Plan): seq<Ptr> {
    var start := Begin(store, nextKey, mem);
    var done := ExecAll(start, plan.body);
    var main := AfterSave(done, plan.refuse).tx;
    var hooked := RunHooks(main, plan.hooks).tx;
    LogAfter(hooked, plan.refuseLater, HooksLog(main, plan.hooks, LogAfter(done, plan.refuse, LogOfAll(start, plan.body, []))))
  }

  /** The transaction just before its commit, with the main flush's events counted as held. */
  function AtCommit(store: Store, nextKey: int, mem: Memory, plan: Plan): TxState {
    AfterSave(RunHooks(AfterSave(ExecAll(Begin(store, nextKey, mem), plan.body), plan.refuse).tx, plan.hooks).tx, plan.refuseLater).tx
  }

  lemma BeginGood(store: Store, nextKey: int, mem: Memory)
    ensures Good(Begin(store, nextKey, mem)) && Exact(Begin(store, nextKey, mem), [])
  {
  }

  lemma SavedGood(s: TxState, refuse: set<Ptr>)
    requires Good(s) && FreshKeys(s.tracked.entries, s.world.mem)
    ensures Good(AfterSave(s, refuse).tx)
  {
    SavedExtends(s, refuse);
    SavedLive(s, refuse);
  }

  lemma ExactAtCommit(store: Store, nextKey: int, mem: Memory, plan: Plan)
    requires Calm(store, nextKey, mem, plan)
    requires RunHooks(AfterSave(ExecAll(Begin(store, nextKey, mem), plan.body), plan.refuse).tx, plan.hooks).ok
    ensures Exact(AtCommit(store, nextKey, mem, plan), FlushedBy(store, nextKey, mem, plan))
  {
    var start := Begin(store, nextKey, mem);
    var done := ExecAll(start, plan.body);
    var main := AfterSave(done, plan.refuse).tx;
    BeginGood(store, nextKey, mem);
    hide Exact, LogOfAll, LogAfter, HooksLog, CalmHooks, SteadyAll, UndisturbedAll;
    hide FreshKeys, ExecAll, AfterSave, RunHooks, Numbered, SlotsLive, OneEach;
    ExecAllExact(start, plan.body, []);
    SavedExact(done, plan.refuse, LogOfAll(start, plan.body, []));
    SavedGood(done, plan.refuse);
    HooksExact(main, plan.hooks, LogAfter(done, plan.refuse, LogOfAll(start, plan.body, [])));
    var hooked := RunHooks(main, plan.hooks).tx;
    SavedExact(hooked, plan.refuseLater, HooksLog(main, plan.hooks, LogAfter(done, plan.refuse, LogOfAll(start, plan.body, []))));
  }

  /** The hooks see the same transaction whether or not the main flush's events are counted as held. */
  lemma HooksSeeTheSame(done: TxState, plan: Plan)
    requires Numbered(done)
    ensures var main, seen := AfterSave(done, plan.refuse).tx, FlushOnly(done, plan.refuse);
            var full, given := RunHooks(main, plan.hooks), RunHooks(seen, plan.hooks);
            && full.ok == given.ok && full.tx.tracked == given.tx.tracked && full.tx.world == given.tx.world
            && exists lost :: given.tx.held == done.held + lost && full.tx.held == main.held + lost
  {
    var main, seen := AfterSave(done, plan.refuse).tx, FlushOnly(done, plan.refuse);
    var bare := seen.(held := []);
    SavedExtends(done, plan.refuse);
    assert Numbered(bare) && Shift(bare, done.held) == seen && Shift(bare, main.held) == main;
    RunHooksShift(bare, plan.hooks, done.held);
    RunHooksShift(bare, plan.hooks, main.held);
    var lost := RunHooks(bare, plan.hooks).tx.held;
    assert RunHooks(seen, plan.hooks).tx.held == done.held + lost;
  }

  // ---- What hooks emit ----------------------------------------------------------------------

  /** No flush of the operation emits an event, unless a savepoint around it is rewound or not released. */
  predicate Silent(s: TxState, op: Op)
    decreases op, 1
  {
    match op
    case SaveChanges(refuse) => NewEvents(s, refuse) == []
    case Savepoint(base, body, fails, refuse, faults) =>
      || faults.opening || Exec(s, op).outcome.Rewound? || Exec(s, op).outcome.ReleaseFailed?
      || (AllSilent(Opened(s, base), body) && (fails || NewEvents(ExecAll(Opened(s, base), body), refuse) == []))
    case _ => true
  }

  predicate AllSilent(s: TxState, ops: seq<Op>)
    decreases ops, 0
  {
    ops == [] || (Silent(s, ops[0]) && AllSilent(Exec(s, ops[0]).tx, ops[1..]))
  }

  predicate HooksSilent(s: TxState, hooks: seq<Hook>)
    decreases |hooks|
  {
    hooks == [] || (AllSilent(s, hooks[0].ops) && (hooks[0].fails || HooksSilent(ExecAll(s, hooks[0].ops), hooks[1..])))
  }

  lemma SaveAdds(s: TxState, refuse: set<Ptr>)
    ensures AfterSave(s, refuse).tx.held == s.held + FlushAll(s.tracked, s.world, refuse).events
  {
    hide FlushAll;
  }

  lemma SimpleHolds(s: TxState, op: Op)
    requires !op.SaveChanges? && !op.Savepoint?
    ensures Simple(s, op).held == s.held
  {
  }

  lemma {:induction false} SilentHolds(s: TxState, op: Op)
    requires Numbered(s)
    ensures Exec(s, op).tx.held == s.held <==> Silent(s, op)
    decreases op, 1
  {
    if op.SaveChanges? {
      SaveAdds(s, op.refuse);
    } else if !op.Savepoint? {
      SimpleHolds(s, op);
    } else if !op.faults.opening {
      var start := Opened(s, op.base);
      OpenedExtends(s, op.base);
      ExecAllExtends(start, op.body);
      hide Numbered, Extends, ExecAll;
      AllSilentHold(start, op.body);
      EndHolds(s, op, ExecAll(start, op.body));
    }
  }

  /** At its end a savepoint keeps what its body holds and its flush emits, or goes back to what was held before. */
  lemma EndHolds(s: TxState, op: Op, inner: TxState)
    requires Numbered(s) && op.Savepoint? && Numbered(inner) && Extends(Opened(s, op.base), inner)
    ensures var r := EndOf(s, op, inner);
            r.tx.held == s.held <==>
            || r.outcome.Rewound? || r.outcome.ReleaseFailed? || (inner.held == s.held && (op.fails || NewEvents(inner, op.refuse) == []))
  {
    SaveAdds(inner, op.refuse);
    SavedExtends(inner, op.refuse);
    var now := if op.fails then inner else AfterSave(inner, op.refuse).tx;
    ExtendsTwice(Opened(s, op.base), inner, now);
    MarkHolds(s, op.base, now);
    assert Opened(s, op.base).held == s.held && s.held <= inner.held;
    hide Found, AfterRestore, FlushAll;
  }

  lemma HeldBetween(a: TxState, b: TxState, c: TxState)
    requires a.held <= b.held <= c.held
    ensures a.held == c.held <==> a.held == b.held && b.held == c.held
  {
  }

  lemma {:induction false} AllSilentHold(s: TxState, ops: seq<Op>)
    requires Numbered(s)
    ensures ExecAll(s, ops).held == s.held <==> AllSilent(s, ops)
    decreases ops, 0
  {
    if ops != [] {
      var next := Exec(s, ops[0]).tx;
      ExecExtends(s, ops[0]);
      ExecAllExtends(next, ops[1..]);
      HeldBetween(s, next, ExecAll(s, ops));
      hide Exec, Numbered;
      SilentHolds(s, ops[0]);
      AllSilentHold(next, ops[1..]);
    }
  }

  lemma {:induction false} HooksSilentHold(s: TxState, hooks: seq<Hook>)
    requires Numbered(s)
    ensures RunHooks(s, hooks).tx.held == s.held <==> HooksSilent(s, hooks)
    decreases |hooks|
  {
    if hooks != [] {
      var next := ExecAll(s, hooks[0].ops);
      ExecAllExtends(s, hooks[0].ops);
      AllSilentHold(s, hooks[0].ops);
      if !hooks[0].fails {
        HooksExtend(next, hooks[1..]);
        HeldBetween(s, next, RunHooks(s, hooks).tx);
        hide ExecAll, Numbered, AllSilent;
        HooksSilentHold(next, hooks[1..]);
      }
    }
  }

  /**
   * The list handed to sinks and after-commit hooks is the pending events of every flushed entity, each entity once, across
   * all flushes and rewound savepoints: exactly when no flush of a before-commit hook that stays emits an event.
   */
  lemma DeliveredExactly(store: Store, nextKey: int, mem: Memory, plan: Plan)
    requires Calm(store, nextKey, mem, plan) && Transaction(store, nextKey, mem, plan).ok
    ensures var done := ExecAll(Begin(store, nextKey, mem), plan.body);
            var log := FlushedBy(store, nextKey, mem, plan);
            var now := AtCommit(store, nextKey, mem, plan);
            && NoRepeats(log) && (forall p :: p in log <==> IsFlushed(now.tracked.entries, p))
            && Transaction(store, nextKey, mem, plan).store.dispatched == store.dispatched + AllEvents(done, plan)
            && (AllEvents(done, plan) == EventsAt(now.world.mem, log, |log|) <==>
                HooksSilent(FlushOnly(done, plan.refuse), plan.hooks))
  {
    var start := Begin(store, nextKey, mem);
    var done := ExecAll(start, plan.body);
    BeginGood(store, nextKey, mem);
    ExecAllExtends(start, plan.body);
    TransactionRan(store, nextKey, mem, plan);
    FlushOnlyNumbered(done, plan.refuse);
    hide Calm, Transaction, FlushedBy, AtCommit, AllEvents, EventsAt, IsFlushed, NoRepeats;
    hide RunHooks, ExecAll, AfterSave, FlushOnly, Begin, Live, HooksSilent, Numbered;
    HooksSilentHold(FlushOnly(done, plan.refuse), plan.hooks);
    HooksSeeTheSame(done, plan);
    ExactAtCommit(store, nextKey, mem, plan);
    ListsDiffer(store, nextKey, mem, plan);
  }

  lemma FlushOnlyNumbered(s: TxState, refuse: set<Ptr>)
    requires Numbered(s)
    ensures Numbered(FlushOnly(s, refuse)) && FlushOnly(s, refuse).held == s.held
  {
    SavedExtends(s, refuse);
  }

  lemma TransactionRan(store: Store, nextKey: int, mem: Memory, plan: Plan)
    requires Transaction(store, nextKey, mem, plan).ok
    ensures var done := ExecAll(Begin(store, nextKey, mem), plan.body);
            && Transaction(store, nextKey, mem, plan).store.dispatched == store.dispatched + AllEvents(done, plan)
            && RunHooks(FlushOnly(done, plan.refuse), plan.hooks).ok
  {
    hide ExecAll, RunHooks, Begin;
  }

  /** The delivered list and the events held at commit differ by what the hooks flushed themselves. */
  lemma ListsDiffer(store: Store, nextKey: int, mem: Memory, plan: Plan)
    requires Numbered(ExecAll(Begin(store, nextKey, mem), plan.body))
    ensures var done := ExecAll(Begin(store, nextKey, mem), plan.body);
            AllEvents(done, plan) == AtCommit(store, nextKey, mem, plan).held <==>
            RunHooks(FlushOnly(done, plan.refuse), plan.hooks).tx.held == done.held
  {
    var done := ExecAll(Begin(store, nextKey, mem), plan.body);
    HooksSeeTheSame(done, plan);
    var main, seen := AfterSave(done, plan.refuse).tx, FlushOnly(done, plan.refuse);
    var full, given := RunHooks(main, plan.hooks).tx, RunHooks(seen, plan.hooks).tx;
    var fresh1, fresh2 := NewEvents(done, plan.refuse), NewEvents(given, plan.refuseLater);
    SaveAdds(done, plan.refuse);
    SaveAdds(full, plan.refuseLater);
    hide AfterSave, RunHooks, FlushOnly, ExecAll, Numbered, Begin, FlushAll;
    var lost :| given.held == done.held + lost && full.held == main.held + lost;
    assert AllEvents(done, plan) == done.held + fresh1 + fresh2;
    assert AtCommit(store, nextKey, mem, plan).held == done.held + fresh1 + lost + fresh2;
    if lost == [] {
      assert done.held + fresh1 + lost == done.held + fresh1;
    } else {
      assert |AllEvents(done, plan)| != |AtCommit(store, nextKey, mem, plan).held|;
    }
  }

  // ---- Hooks that flush ---------------------------------------------------------------------

  /** A hook that neither flushes nor nests a savepoint. */
  predicate Plain(hooks: seq<Hook>) {
    forall i, j | 0 <= i < |hooks| && 0 <= j < |hooks[i].ops| :: !hooks[i].ops[j].SaveChanges? && !hooks[i].ops[j].Savepoint?
  }

  lemma {:induction false} PlainProgramSilent(s: TxState, ops: seq<Op>)
    requires forall j | 0 <= j < |ops| :: !ops[j].SaveChanges? && !ops[j].Savepoint?
    ensures AllSilent(s, ops)
    decreases |ops|
  {
    hide Exec;
    if ops != [] {
      assert !ops[0].SaveChanges? && !ops[0].Savepoint?;
      PlainProgramSilent(Exec(s, ops[0]).tx, ops[1..]);
    }
  }

  lemma {:induction false} PlainHooksSilent(s: TxState, hooks: seq<Hook>)
    requires Plain(hooks)
    ensures HooksSilent(s, hooks)
    decreases |hooks|
  {
    if hooks != [] {
      hide ExecAll, AllSilent;
      PlainProgramSilent(s, hooks[0].ops);
      if !hooks[0].fails {
        forall i, j | 0 <= i < |hooks[1..]| && 0 <= j < |hooks[1..][i].ops|
          ensures !hooks[1..][i].ops[j].SaveChanges? && !hooks[1..][i].ops[j].Savepoint?
        {
          assert hooks[1..][i] == hooks[i + 1];
        }
        PlainHooksSilent(ExecAll(s, hooks[0].ops), hooks[1..]);
      }
    }
  }

  /** With hooks that only stage changes, what is handed on is the events of every flushed entity, each once. */
  lemma PlainHooksDeliver(store: Store, nextKey: int, mem: Memory, plan: Plan)
    requires Calm(store, nextKey, mem, plan) && Transaction(store, nextKey, mem, plan).ok && Plain(plan.hooks)
    ensures var log := FlushedBy(store, nextKey, mem, plan);
            var now := AtCommit(store, nextKey, mem, plan);
            && NoRepeats(log) && (forall p :: p in log <==> IsFlushed(now.tracked.entries, p))
            && Transaction(store, nextKey, mem, plan).store.dispatched == store.dispatched + EventsAt(now.world.mem, log, |log|)
  {
    var done := ExecAll(Begin(store, nextKey, mem), plan.body);
    DeliveredExactly(store, nextKey, mem, plan);
    hide *;
    PlainHooksSilent(FlushOnly(done, plan.refuse), plan.hooks);
  }

  const FIRST := Ptr(1, ORDER)
  const SECOND := Ptr(2, ORDER)
  const NEW_ORDERS: Memory := map[FIRST := Entity(0, map[], 0, [1]), SECOND := Entity(0, map[], 0, [2])]
  const NOTHING := Store(map[], [], [])

  /** The body adds one entity; a before-commit hook adds another and flushes it itself. */
  const LOSING := Plan([Add(FIRST, 0)], false, {}, [Hook([Add(SECOND, 0), SaveChanges({})], false)], {}, [], false)

  /** Staging one more entity that has no key yet. */
  lemma OneAdd(s: TxState, p: Ptr)
    requires p.meta == ORDER && !Has(s.tracked.entries, p) && At(s.world.mem, p).key == 0
    ensures Exec(s, Add(p, 0)).tx == s.(tracked := s.tracked.(entries := s.tracked.entries + [Staged(p)]))
  {
  }

  lemma NothingLeft(s: TxState)
    requires forall i | 0 <= i < |s.tracked.entries| :: s.tracked.entries[i].flushed && s.tracked.entries[i].state.Added?
    ensures AfterSave(s, {}) == Result(s, Done) && NewEvents(s, {}) == []
  {
    var es := s.tracked.entries;
    assert AfterDetect(s.tracked, s.world.mem).entries == es;
    NoWork(es);
    assert s.held + [] == s.held;
  }

  /** The transaction after the body, and after each flush of the plan. */
  lemma LosingRun() returns (done: TxState, seen: TxState, hooked: TxState)
    ensures done == ExecAll(Begin(NOTHING, 1, NEW_ORDERS), LOSING.body) && done.held == []
    ensures AfterSave(done, {}).outcome.Done? && NewEvents(done, {}) == [1] && seen == FlushOnly(done, {})
    ensures RunHooks(seen, LOSING.hooks) == HooksRun(hooked, true) && NewEvents(hooked, {}) == []
    ensures AfterSave(hooked, {}) == Result(hooked, Done) && Key("order", 2) in hooked.world.rows
  {
    var start := Begin(NOTHING, 1, NEW_ORDERS);
    var body := LOSING.body;
    OneAdd(start, FIRST);
    done := Exec(start, body[0]).tx;
    assert body[1..] == [];
    assert ExecAll(done, []) == done;
    OneInsert(done, [], FIRST);
    seen := FlushOnly(done, {});
    hooked := HookRun(seen);
    NothingLeft(hooked);
  }

  lemma HookRun(seen: TxState) returns (hooked: TxState)
    requires seen.tracked.entries == [Staged(FIRST).(flushed := true)]
    requires At(seen.world.mem, SECOND).key == 0 && Key("order", 2) !in seen.world.rows && seen.world.nextKey == 2
    ensures RunHooks(seen, LOSING.hooks) == HooksRun(hooked, true) && Key("order", 2) in hooked.world.rows
    ensures hooked.tracked.entries == [Staged(FIRST).(flushed := true), Staged(SECOND).(flushed := true)]
  {
    var hook := LOSING.hooks[0];
    OneAdd(seen, SECOND);
    var added := Exec(seen, hook.ops[0]).tx;
    OneInsert(added, seen.tracked.entries, SECOND);
    hooked := AfterSave(added, {}).tx;
    TwoOps(seen, hook.ops);
    hide Simple, AfterSave;
    assert LOSING.hooks[1..] == [];
    assert RunHooks(hooked, []) == HooksRun(hooked, true);
  }

  lemma TwoOps(s: TxState, ops: seq<Op>)
    requires |ops| == 2
    ensures ExecAll(s, ops) == Exec(Exec(s, ops[0]).tx, ops[1]).tx
  {
    hide Exec;
    assert ops[1..][1..] == [] && ops[1..][0] == ops[1];
    assert ExecAll(Exec(Exec(s, ops[0]).tx, ops[1]).tx, []) == Exec(Exec(s, ops[0]).tx, ops[1]).tx;
  }

  /** The hook's entity is committed, and nobody is told its event. */
  lemma FlushingHookLosesEvent()
    ensures var end := Transaction(NOTHING, 1, NEW_ORDERS, LOSING);
            end.ok && Key("order", 2) in end.store.rows && At(NEW_ORDERS, SECOND).events == [2] && end.store.dispatched == [1]
  {
    var done, seen, hooked := LosingRun();
    var start := Begin(NOTHING, 1, NEW_ORDERS);
    var early := done.held + NewEvents(done, {});
    hide ExecAll, AfterSave, RunHooks, NewEvents, Begin, AfterCommit;
    assert early + [] == [1];
    LosingEnd(hooked, early);
  }

  lemma LosingEnd(hooked: TxState, early: seq<int>)
    requires AfterSave(hooked, {}) == Result(hooked, Done) && NewEvents(hooked, {}) == []
    ensures var a := Committed(hooked, LOSING, early); a.ok && a.told == early && a.tx.world == hooked.world
  {
    hide AfterSave, AfterCommit, NewEvents;
    assert early + [] == early;
    assert RunSinks(FlushOnly(hooked, {}), [], early) == SinksRun(FlushOnly(hooked, {}), true);
  }

  // ---- The engine ---------------------------------------------------------------------------

  class Engine {
    var rows: Rows
    var outbox: seq<int>
    var dispatched: seq<int>

    ghost function Contents(): Store
      reads this
    {
      Store(rows, outbox, dispatched)
    }

    method RunHookList(session: Session, ghost s: TxState, hooks: seq<Hook>) returns (ok: bool)
      requires session.Valid() && session.State() == s
      modifies session, session.tracker, session.tracker.Repr
      ensures session.Valid() && fresh(session.tracker.Repr - old(session.tracker.Repr))
      ensures HooksRun(session.State(), ok) == RunHooks(s, hooks)
      decreases |hooks|
    {
      hide ExecAll, WellIndexed, SlotsOf, RecordsOf;
      if hooks == [] { return true; }
      session.ExecuteAll(s, hooks[0].ops);
      if hooks[0].fails { return false; }
      ok := RunHookList(session, ExecAll(s, hooks[0].ops), hooks[1..]);
    }

    method RunSinkList(session: Session, ghost s: TxState, sinks: seq<Sink>, events: seq<int>) returns (ok: bool)
      requires session.Valid() && session.State() == s
      modifies session`world
      ensures session.Valid() && SinksRun(session.State(), ok) == RunSinks(s, sinks, events)
      decreases |sinks|
    {
      hide WellIndexed, SlotsOf, RecordsOf;
      if sinks == [] { return true; }
      session.Write(events, Written(sinks[0], events));
      if sinks[0].fails { return false; }
      ok := RunSinkList(session, session.State(), sinks[1..], events);
    }

    /** Runs the body in a new transaction. On an error the deferred rollback takes back whatever was written. */
    method Transact(nextKey: int, mem: Memory, plan: Plan) returns (ok: bool, session: Session)
      modifies this
      ensures fresh(session) && session.Valid()
      ensures End(Contents(), session.State().tracked, ok) == Transaction(old(Contents()), nextKey, mem, plan)
    {
      ghost var store := Contents();
      ghost var start := Begin(store, nextKey, mem);
      hide Attempted, WellIndexed, SlotsOf, RecordsOf;
      var told;
      ok, told, session := RunOnce(nextKey, mem, plan);
      if !ok { session.RollBack(); }
      rows, outbox, dispatched := session.world.rows, session.world.outbox, dispatched + told;
    }

    method RunOnce(nextKey: int, mem: Memory, plan: Plan) returns (ok: bool, told: seq<int>, session: Session)
      ensures fresh(session) && session.Valid()
      ensures Attempt(session.State(), told, ok) == Attempted(Begin(Contents(), nextKey, mem), plan)
    {
      ghost var start := Begin(Contents(), nextKey, mem);
      hide ExecAll, Finished, WellIndexed, SlotsOf, RecordsOf;
      session := new Session(World(rows, nextKey, mem, outbox));
      session.ExecuteAll(start, plan.body);
      if plan.fails { return false, [], session; }
      ok, told := Finish(session, ExecAll(start, plan.body), plan);
    }

    /** A flush that fails hands out no events. */
    lemma FailedHolds(s: TxState, refuse: set<Ptr>)
      requires AfterSave(s, refuse).outcome.Failed?
      ensures AfterSave(s, refuse).tx.held == s.held
    {
      hide RunList, Work, AfterDetect;
      assert s.held + [] == s.held;
    }

    method GiveUp(session: Session)
      requires session.Valid()
      modifies session, session.tracker, session.tracker.Repr
      ensures session.Valid() && session.State() == GivenUp(old(session.State())).tx
    {
      hide Unflushed, WellIndexed, SlotsOf, RecordsOf;
      session.tracker.ResetFlushed();
    }

    method Finish(session: Session, ghost done: TxState, plan: Plan) returns (ok: bool, told: seq<int>)
      requires session.Valid() && session.State() == done
      modifies session, session.tracker, session.tracker.Repr
      ensures session.Valid()
      ensures Attempt(session.State(), told, ok) == Finished(done, plan)
    {
      hide RunHooks, FlushAll, AfterCommit, Unflushed, WellIndexed, SlotsOf, RecordsOf, Committed;
      var events, flushed := session.FlushChanges(plan.refuse);
      if !flushed {
        FailedHolds(done, plan.refuse);
        GiveUp(session);
        return false, [];
      }
      var allEvents := session.held + events;
      ok := RunHookList(session, FlushOnly(done, plan.refuse), plan.hooks);
      if !ok {
        GiveUp(session);
        return false, [];
      }
      ok, told := Commit(session, RunHooks(FlushOnly(done, plan.refuse), plan.hooks).tx, plan, allEvents);
    }

    method Commit(session: Session, ghost hooked: TxState, plan: Plan, early: seq<int>) returns (ok: bool, told: seq<int>)
      requires session.Valid() && session.State() == hooked
      modifies session, session.tracker, session.tracker.Repr
      ensures session.Valid()
      ensures Attempt(session.State(), told, ok) == Committed(hooked, plan, early)
    {
      hide FlushAll, AfterCommit, Unflushed, WellIndexed, SlotsOf, RecordsOf, RunSinks;
      var events, flushed := session.FlushChanges(plan.refuseLater);
      if !flushed {
        FailedHolds(hooked, plan.refuseLater);
        GiveUp(session);
        return false, [];
      }
      told := early + events;
      ok := RunSinkList(session, session.State(), plan.sinks, told);
      if !ok || plan.commitFails {
        GiveUp(session);
        return false, [];
      }
      session.stack := [];
      session.tracker.PostCommit(session.world.mem);
    }
  }
}
