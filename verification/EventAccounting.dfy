/** The events a transaction hands on to its sinks and after-commit hooks. */
module EventAccounting {
  // Which events a transaction hands to its sinks and after-commit hooks.

  import opened Tracking
  import opened Flush
  import opened Savepoints

  predicate IsFlushed(entries: seq<Entry>, p: Ptr) { exists i | 0 <= i < |entries| :: entries[i].entity == p && entries[i].flushed }

  /** The pending events of a list of entities, one after the other. */
  function EventsAt(mem: Memory, log: seq<Ptr>, n: nat): seq<int>
    requires n <= |log|
  {
    if n == 0 then [] else EventsAt(mem, log, n - 1) + At(mem, log[n - 1]).events
  }

  predicate NoRepeats(log: seq<Ptr>) { forall i, j | 0 <= i < j < |log| :: log[i] != log[j] }

  /** The held events are the pending events of each flushed entity, each entity once. */
  ghost predicate Exact(s: TxState, log: seq<Ptr>) {
    && NoRepeats(log) && (forall p :: p in log <==> IsFlushed(s.tracked.entries, p))
    && s.held == EventsAt(s.world.mem, log, |log|)
  }

  /** No flushed entity is removed, detached, or given another event. */
  ghost predicate Undisturbed(s: TxState, op: Op)
    decreases op, 1
  {
    match op
    case Remove(p) => !IsFlushed(s.tracked.entries, p)
    case HardRemove(p) => !IsFlushed(s.tracked.entries, p)
    case DetachIt(p) => !IsFlushed(s.tracked.entries, p)
    case Raise(p, _) => !IsFlushed(s.tracked.entries, p)
    case Savepoint(base, body, _, _, faults) => faults.opening || UndisturbedAll(Opened(s, base), body)
    case _ => true
  }

  ghost predicate UndisturbedAll(s: TxState, ops: seq<Op>)
    decreases ops, 0
  {
    ops == [] || (Undisturbed(s, ops[0]) && UndisturbedAll(Exec(s, ops[0]).tx, ops[1..]))
  }

  /** What was emitted stays emitted, with the same events. */
  ghost predicate Grows(s: TxState, log: seq<Ptr>, now: TxState, more: seq<Ptr>) {
    log <= more && forall p | p in log :: At(now.world.mem, p).events == At(s.world.mem, p).events
  }

  lemma {:induction false} SameEvents(a: Memory, b: Memory, log: seq<Ptr>, n: nat)
    requires n <= |log| && forall p | p in log :: At(a, p).events == At(b, p).events
    ensures EventsAt(a, log, n) == EventsAt(b, log, n)
  {
    if n > 0 {
      assert log[n - 1] in log;
      SameEvents(a, b, log, n - 1);
    }
  }

  lemma {:induction false} EventsTogether(mem: Memory, log: seq<Ptr>, work: seq<Entry>, n: nat)
    requires n <= |work|
    ensures EventsAt(mem, log + Entities(work), |log| + n) == EventsAt(mem, log, |log|) + EventsOf(mem, work, n)
  {
    if n == 0 {
      SamePrefix(mem, log, log + Entities(work), |log|);
    } else {
      EventsTogether(mem, log, work, n - 1);
    }
  }

  lemma {:induction false} SamePrefix(mem: Memory, a: seq<Ptr>, b: seq<Ptr>, n: nat)
    requires n <= |a| && n <= |b| && forall i | 0 <= i < n :: a[i] == b[i]
    ensures EventsAt(mem, a, n) == EventsAt(mem, b, n)
  {
    if n > 0 { SamePrefix(mem, a, b, n - 1); }
  }

  function Entities(work: seq<Entry>): (ps: seq<Ptr>)
    ensures |ps| == |work| && forall i | 0 <= i < |work| :: ps[i] == work[i].entity
  {
    seq(|work|, i requires 0 <= i < |work| => work[i].entity)
  }

  predicate InWork(work: seq<Entry>, p: Ptr) { exists j | 0 <= j < |work| :: work[j].entity == p }

  lemma EntitiesIn(work: seq<Entry>, p: Ptr)
    ensures p in Entities(work) <==> InWork(work, p)
  {
    if InWork(work, p) {
      var j :| 0 <= j < |work| && work[j].entity == p;
      assert Entities(work)[j] == p;
    }
    if p in Entities(work) {
      var j :| 0 <= j < |work| && Entities(work)[j] == p;
      assert work[j].entity == p;
    }
  }

  lemma DetectKeepsFlags(t: Contents, mem: Memory, p: Ptr)
    requires OneEach(t.entries)
    ensures var found := AfterDetect(t, mem).entries; OneEach(found) && (IsFlushed(found, p) <==> IsFlushed(t.entries, p))
  {
    var found := AfterDetect(t, mem).entries;
    forall i | 0 <= i < |found| ensures found[i].entity == t.entries[i].entity && found[i].flushed == t.entries[i].flushed { }
    if IsFlushed(t.entries, p) {
      var i :| 0 <= i < |found| && t.entries[i].entity == p && t.entries[i].flushed;
      assert found[i].flushed && found[i].entity == p;
    }
    if IsFlushed(found, p) {
      var i :| 0 <= i < |found| && found[i].entity == p && found[i].flushed;
      assert t.entries[i].flushed && t.entries[i].entity == p;
    }
  }

  lemma NewlyFlushed(entries: seq<Entry>, p: Ptr)
    requires OneEach(entries) && InWork(Work(entries), p)
    ensures IsFlushed(AllMarked(entries), p) && !IsFlushed(entries, p)
  {
    var work := Work(entries);
    WorkOnce(entries);
    var j :| 0 <= j < |work| && work[j].entity == p;
    assert work[j] in work;
    var i :| 0 <= i < |entries| && entries[i] == work[j];
    hide Work;
    assert AllMarked(entries)[i].flushed && AllMarked(entries)[i].entity == p;
  }

  lemma FlushedOrNew(entries: seq<Entry>, p: Ptr)
    requires OneEach(entries)
    ensures IsFlushed(AllMarked(entries), p) ==> IsFlushed(entries, p) || InWork(Work(entries), p)
    ensures IsFlushed(entries, p) ==> IsFlushed(AllMarked(entries), p)
  {
    var work := Work(entries);
    WorkOnce(entries);
    hide Work;
    if i :| 0 <= i < |entries| && AllMarked(entries)[i].entity == p && AllMarked(entries)[i].flushed {
      if !entries[i].flushed {
        assert entries[i] in work;
        var j :| 0 <= j < |work| && work[j] == entries[i];
        assert work[j].entity == p;
      }
    }
    if i :| 0 <= i < |entries| && entries[i].entity == p && entries[i].flushed {
      assert AllMarked(entries)[i].flushed && AllMarked(entries)[i].entity == p;
    }
  }

  /** A flush emits each entity it flushes once, and none it had emitted before. */
  lemma FlushedAfter(t: Contents, mem: Memory, p: Ptr)
    requires OneEach(t.entries)
    ensures var found := AfterDetect(t, mem).entries;
            && (IsFlushed(found, p) <==> IsFlushed(t.entries, p))
            && (IsFlushed(AllMarked(found), p) <==> IsFlushed(t.entries, p) || p in Entities(Work(found)))
            && (p in Entities(Work(found)) ==> !IsFlushed(t.entries, p))
  {
    var found := AfterDetect(t, mem).entries;
    DetectKeepsFlags(t, mem, p);
    hide *;
    EntitiesIn(Work(found), p);
    FlushedOrNew(found, p);
    if InWork(Work(found), p) { NewlyFlushed(found, p); }
  }

  lemma EntitiesOnce(work: seq<Entry>)
    requires OneEach(work)
    ensures NoRepeats(Entities(work))
  {
  }

  lemma JoinNoRepeats(a: seq<Ptr>, b: seq<Ptr>)
    requires NoRepeats(a) && NoRepeats(b) && forall p | p in b :: p !in a
    ensures NoRepeats(a + b)
  {
    forall i, j | 0 <= i < j < |a + b| ensures (a + b)[i] != (a + b)[j] {
      if i < |a| <= j { assert a[i] in a && b[j - |a|] in b; }
    }
  }

  // ---- Steps --------------------------------------------------------------------------------

  /** The log after a flush. */
  function LogAfter(s: TxState, refuse: set<Ptr>, log: seq<Ptr>): seq<Ptr> {
    if AfterSave(s, refuse).outcome.Done? then log + Entities(Work(AfterDetect(s.tracked, s.world.mem).entries)) else log
  }

  lemma LogIsFlushed(s: TxState, refuse: set<Ptr>, log: seq<Ptr>)
    requires OneEach(s.tracked.entries) && Exact(s, log)
    ensures NoRepeats(LogAfter(s, refuse, log))
    ensures forall p :: p in LogAfter(s, refuse, log) <==> IsFlushed(AfterSave(s, refuse).tx.tracked.entries, p)
  {
    var found := AfterDetect(s.tracked, s.world.mem).entries;
    forall i | 0 <= i < |found| ensures found[i].entity == s.tracked.entries[i].entity { }
    WorkOnce(found);
    EntitiesOnce(Work(found));
    hide Work, AllMarked, AfterDetect, IsFlushed, RunList, EventsOf, EventsAt;
    forall p ensures p in LogAfter(s, refuse, log) <==> IsFlushed(AfterSave(s, refuse).tx.tracked.entries, p) {
      FlushedAfter(s.tracked, s.world.mem, p);
    }
    forall p | p in Entities(Work(found)) ensures p !in log { FlushedAfter(s.tracked, s.world.mem, p); }
    JoinNoRepeats(log, Entities(Work(found)));
  }

  lemma SavedEvents(s: TxState, refuse: set<Ptr>, p: Ptr)
    ensures At(AfterSave(s, refuse).tx.world.mem, p).events == At(s.world.mem, p).events
  {
    var work := Work(AfterDetect(s.tracked, s.world.mem).entries);
    RunKeepsValues(s.world, work, |work|, refuse);
    hide RunList, Work, AfterDetect;
  }

  lemma SavedHeld(s: TxState, refuse: set<Ptr>, log: seq<Ptr>)
    requires s.held == EventsAt(s.world.mem, log, |log|)
    ensures var now, more := AfterSave(s, refuse).tx, LogAfter(s, refuse, log); now.held == EventsAt(now.world.mem, more, |more|)
  {
    var now := AfterSave(s, refuse).tx;
    var work := Work(AfterDetect(s.tracked, s.world.mem).entries);
    forall p ensures At(now.world.mem, p).events == At(s.world.mem, p).events { SavedEvents(s, refuse, p); }
    hide Work, AfterDetect, AllMarked, RunList;
    SameEvents(s.world.mem, now.world.mem, log, |log|);
    EventsTogether(now.world.mem, log, work, |work|);
  }

  lemma SavedExact(s: TxState, refuse: set<Ptr>, log: seq<Ptr>)
    requires OneEach(s.tracked.entries) && Exact(s, log)
    ensures Exact(AfterSave(s, refuse).tx, LogAfter(s, refuse, log)) && Grows(s, log, AfterSave(s, refuse).tx, LogAfter(s, refuse, log))
  {
    assert log <= LogAfter(s, refuse, log);
    hide AfterSave, LogAfter, OneEach, IsFlushed, EventsAt;
    LogIsFlushed(s, refuse, log);
    SavedHeld(s, refuse, log);
    forall p ensures At(AfterSave(s, refuse).tx.world.mem, p).events == At(s.world.mem, p).events { SavedEvents(s, refuse, p); }
  }

  lemma SameFlags(a: seq<Entry>, b: seq<Entry>, p: Ptr)
    requires |a| == |b| && forall i | 0 <= i < |a| :: a[i].entity == b[i].entity && (a[i].entity == p ==> a[i].flushed == b[i].flushed)
    ensures IsFlushed(a, p) <==> IsFlushed(b, p)
  {
    if i :| 0 <= i < |a| && a[i].entity == p && a[i].flushed { assert b[i].entity == p && b[i].flushed; }
    if i :| 0 <= i < |b| && b[i].entity == p && b[i].flushed { assert a[i].entity == p && a[i].flushed; }
  }

  lemma WithFlags(entries: seq<Entry>, e: Entry, p: Ptr)
    requires !e.flushed
    ensures IsFlushed(entries + [e], p) <==> IsFlushed(entries, p)
  {
    if i :| 0 <= i < |entries| && entries[i].entity == p && entries[i].flushed { assert (entries + [e])[i].flushed; }
  }

  lemma {:induction false} WithoutFlags(entries: seq<Entry>, q: Ptr, n: nat, p: Ptr)
    requires n <= |entries| && !IsFlushed(entries, q)
    ensures IsFlushed(Without(entries, q, n), p) <==> IsFlushed(entries[..n], p)
  {
    if n > 0 {
      WithoutFlags(entries, q, n - 1, p);
      var e, rest := entries[n - 1], Without(entries, q, n - 1);
      assert entries[..n] == entries[..n - 1] + [e];
      OneMoreFlag(entries[..n - 1], e, p);
      OneMoreFlag(rest, e, p);
      assert Without(entries, q, n) == if e.entity == q then rest else rest + [e];
      assert e.entity == q ==> !e.flushed;
    }
  }

  lemma OneMoreFlag(entries: seq<Entry>, e: Entry, p: Ptr)
    ensures IsFlushed(entries + [e], p) <==> IsFlushed(entries, p) || (e.entity == p && e.flushed)
  {
    if i :| 0 <= i < |entries| && entries[i].entity == p && entries[i].flushed { assert (entries + [e])[i].flushed; }
    if e.entity == p && e.flushed { assert (entries + [e])[|entries|] == e; }
  }

  lemma SimpleFlags(s: TxState, op: Op, p: Ptr)
    requires !op.Savepoint? && !op.SaveChanges? && Undisturbed(s, op)
    ensures IsFlushed(Simple(s, op).tracked.entries, p) <==> IsFlushed(s.tracked.entries, p)
    ensures IsFlushed(s.tracked.entries, p) ==> At(Simple(s, op).world.mem, p).events == At(s.world.mem, p).events
  {
    var es, now := s.tracked.entries, Simple(s, op).tracked.entries;
    if |now| == |es| + 1 && now[..|es|] == es && !now[|es|].flushed {
      assert now == es + [now[|es|]];
      WithFlags(es, now[|es|], p);
    } else if op.DetachIt? || (op.Remove? && PendingInsert(es, op.p)) {
      WithoutFlags(es, op.p, |es|, p);
      assert es[..|es|] == es;
    } else {
      SameFlags(es, now, p);
    }
  }

  lemma SimpleExact(s: TxState, op: Op, log: seq<Ptr>)
    requires !op.Savepoint? && !op.SaveChanges? && Undisturbed(s, op) && Exact(s, log)
    ensures Exact(Simple(s, op), log) && Grows(s, log, Simple(s, op), log)
  {
    var now := Simple(s, op);
    assert now.held == s.held;
    hide Simple, Undisturbed, IsFlushed, NoRepeats;
    forall p ensures IsFlushed(now.tracked.entries, p) <==> IsFlushed(s.tracked.entries, p) { SimpleFlags(s, op, p); }
    forall p | p in log ensures At(now.world.mem, p).events == At(s.world.mem, p).events { SimpleFlags(s, op, p); }
    SameEvents(s.world.mem, now.world.mem, log, |log|);
  }

  /** What a rewind restores is exact again for the log of the savepoint's start. */
  lemma RestoredExact(s: TxState, log: seq<Ptr>, now: TxState, more: seq<Ptr>)
    requires Exact(s, log) && Grows(s, log, now, more)
    requires now.tracked.entries == s.tracked.entries && now.held == s.held
    ensures Exact(now, log) && Grows(s, log, now, log)
  {
    SameEvents(s.world.mem, now.world.mem, log, |log|);
    hide IsFlushed, NoRepeats, EventsAt;
  }

  lemma GrowsTwice(a: TxState, la: seq<Ptr>, b: TxState, lb: seq<Ptr>, c: TxState, lc: seq<Ptr>)
    requires Grows(a, la, b, lb) && Grows(b, lb, c, lc)
    ensures Grows(a, la, c, lc)
  {
    assert la <= lc;
    forall p | p in la ensures p in lb { }
  }

  /** The log after an operation. */
  function LogOf(s: TxState, op: Op, log: seq<Ptr>): seq<Ptr>
    decreases op, 1
  {
    match op
    case SaveChanges(refuse) => LogAfter(s, refuse, log)
    case Savepoint(base, body, _, refuse, faults) =>
      if faults.opening then log
      else
        var inner, within := ExecAll(Opened(s, base), body), LogOfAll(Opened(s, base), body, log);
        EndLog(Exec(s, op).outcome, log, if op.fails then within else LogAfter(inner, refuse, within))
    case _ => log
  }

  function LogOfAll(s: TxState, ops: seq<Op>, log: seq<Ptr>): seq<Ptr>
    decreases ops, 0
  {
    if ops == [] then log else LogOfAll(Exec(s, ops[0]).tx, ops[1..], LogOf(s, ops[0], log))
  }

  ghost predicate Good(s: TxState) { Numbered(s) && Live(s) }

  lemma OpenedExact(s: TxState, base: string, log: seq<Ptr>)
    requires Exact(s, log) && Good(s)
    ensures Exact(Opened(s, base), log) && Good(Opened(s, base)) && Grows(s, log, Opened(s, base), log)
  {
    OpenedExtends(s, base);
  }

  /** The log that goes with the end of a savepoint. */
  function EndLog(outcome: Outcome, log: seq<Ptr>, more: seq<Ptr>): seq<Ptr> {
    if outcome.Done? || outcome.RewindFailed? then more else log
  }

  lemma RewindExact(s: TxState, base: string, now: TxState, faults: Faults, log: seq<Ptr>, more: seq<Ptr>)
    requires Numbered(s) && Extends(Opened(s, base), now) && Exact(s, log) && Exact(now, more) && Grows(s, log, now, more)
    ensures var r := Rewind(s, now, Name(base, s.counter + 1), faults);
            Exact(r.tx, EndLog(r.outcome, log, more)) && Grows(s, log, r.tx, EndLog(r.outcome, log, more))
  {
    MarkHolds(s, base, now);
    var r := Rewind(s, now, Name(base, s.counter + 1), faults);
    hide Numbered, Extends, Opened, Found, IsFlushed, NoRepeats, EventsAt, Exact;
    if r.outcome.Rewound? { RestoredExact(s, log, r.tx, more); }
  }

  lemma ReleaseExact(s: TxState, base: string, now: TxState, faults: Faults, log: seq<Ptr>, more: seq<Ptr>)
    requires Numbered(s) && Extends(Opened(s, base), now) && Exact(s, log) && Exact(now, more) && Grows(s, log, now, more)
    ensures var r := Release(s, now, Name(base, s.counter + 1), faults);
            Exact(r.tx, EndLog(r.outcome, log, more)) && Grows(s, log, r.tx, EndLog(r.outcome, log, more))
  {
    MarkHolds(s, base, now);
    var r := Release(s, now, Name(base, s.counter + 1), faults);
    hide Numbered, Extends, Opened, Found, IsFlushed, NoRepeats, EventsAt;
    if r.outcome.ReleaseFailed? { RestoredExact(s, log, r.tx, more); }
  }

  lemma EndExact(s: TxState, op: Op, log: seq<Ptr>, inner: TxState, within: seq<Ptr>)
    requires Good(s) && op.Savepoint? && !op.faults.opening && Exact(s, log)
    requires inner == ExecAll(Opened(s, op.base), op.body) && within == LogOfAll(Opened(s, op.base), op.body, log)
    requires Good(inner) && Extends(Opened(s, op.base), inner) && Exact(inner, within) && Grows(s, log, inner, within)
    ensures Exact(Exec(s, op).tx, LogOf(s, op, log)) && Grows(s, log, Exec(s, op).tx, LogOf(s, op, log))
  {
    var saved := AfterSave(inner, op.refuse);
    var more := LogAfter(inner, op.refuse, within);
    LogEnds(s, op, log);
    hide Exec, LogOf, Opened, ExecAll, LogOfAll, AfterSave, LogAfter, Rewind, Release, Exact, Grows, Extends, SlotsLive, Numbered, OneEach;
    SavepointEnds(s, op);
    if op.fails {
      RewindExact(s, op.base, inner, op.faults, log, within);
    } else {
      SavedExact(inner, op.refuse, within);
      SavedExtends(inner, op.refuse);
      ExtendsTwice(Opened(s, op.base), inner, saved.tx);
      GrowsTwice(s, log, inner, within, saved.tx, more);
      RewindExact(s, op.base, saved.tx, op.faults, log, more);
      ReleaseExact(s, op.base, saved.tx, op.faults, log, more);
    }
  }

  lemma LogEnds(s: TxState, op: Op, log: seq<Ptr>)
    requires op.Savepoint? && !op.faults.opening
    ensures var inner, within := ExecAll(Opened(s, op.base), op.body), LogOfAll(Opened(s, op.base), op.body, log);
            LogOf(s, op, log) == EndLog(Exec(s, op).outcome, log, if op.fails then within else LogAfter(inner, op.refuse, within))
  {
    hide Opened, ExecAll, LogOfAll, AfterSave, LogAfter;
  }

  lemma {:induction false} ExecExact(s: TxState, op: Op, log: seq<Ptr>)
    requires Good(s) && Steady(s, op) && Undisturbed(s, op) && Exact(s, log)
    ensures Exact(Exec(s, op).tx, LogOf(s, op, log)) && Grows(s, log, Exec(s, op).tx, LogOf(s, op, log))
    decreases op, 1
  {
    if op.SaveChanges? {
      SavedExact(s, op.refuse, log);
    } else if !op.Savepoint? {
      SimpleExact(s, op, log);
    } else if op.faults.opening {
      hide Numbered, Live, IsFlushed, EventsAt;
    } else {
      var inner, within := ExecAll(Opened(s, op.base), op.body), LogOfAll(Opened(s, op.base), op.body, log);
      OpenedExact(s, op.base, log);
      ExecAllExtends(Opened(s, op.base), op.body);
      hide Good, Exact, Grows, Opened, Exec, LogOf, Extends, Numbered;
      ExecAllExact(Opened(s, op.base), op.body, log);
      GrowsTwice(s, log, Opened(s, op.base), log, inner, within);
      EndExact(s, op, log, inner, within);
    }
  }

  lemma {:induction false} ExecAllExact(s: TxState, ops: seq<Op>, log: seq<Ptr>)
    requires Good(s) && SteadyAll(s, ops) && UndisturbedAll(s, ops) && Exact(s, log)
    ensures Exact(ExecAll(s, ops), LogOfAll(s, ops, log)) && Grows(s, log, ExecAll(s, ops), LogOfAll(s, ops, log))
    ensures Good(ExecAll(s, ops))
    decreases ops, 0
  {
    if ops == [] {
    } else {
      var next := Exec(s, ops[0]).tx;
      ExecExtends(s, ops[0]);
      ExecLive(s, ops[0]);
      assert Good(next);
      hide Good, Exact, Grows, Exec, LogOf, Steady, Undisturbed;
      ExecExact(s, ops[0], log);
      ExecAllExact(next, ops[1..], LogOf(s, ops[0], log));
      GrowsTwice(s, log, next, LogOf(s, ops[0], log), ExecAll(s, ops), LogOfAll(s, ops, log));
    }
  }
}
