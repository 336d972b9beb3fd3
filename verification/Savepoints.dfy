/** Nested savepoints. */
module Savepoints {
  // A transaction's own state, and what programs with nested savepoints do to it.

  import opened Options
  import opened Tracking
  import opened Flush

  /** A savepoint's SQL name: the caller's, which may repeat, and a number that does not. */
  datatype Name = Name(base: string, number: nat)

  datatype Mark = Mark(name: Name, rows: Rows, outbox: seq<int>)

  datatype TxState = TxState(tracked: Contents, world: World, held: seq<int>, counter: nat, stack: seq<Mark>)

  /** Which of a savepoint's own statements fail: SAVEPOINT, ROLLBACK TO, RELEASE. */
  datatype Faults = Faults(opening: bool, rewinding: bool, releasing: bool)

  datatype Op =
    | Load(p: Ptr, row: Entity)                      // a query materialises a row
    | Add(p: Ptr, generated: int)
    | AttachAs(p: Ptr, state: EntityState)
    | DetachIt(p: Ptr)
    | Remove(p: Ptr)
    | HardRemove(p: Ptr)
    | Assign(p: Ptr, fields: Fields)                 // user code sets columns
    | Raise(p: Ptr, event: int)                      // user code records an event
    | RawSql(rows: Rows)                             // any raw statement
    | SaveChanges(refuse: set<Ptr>)
    | Savepoint(base: string, body: seq<Op>, fails: bool, refuse: set<Ptr>, faults: Faults)

  datatype Outcome = Done | Failed | Rewound | RewindFailed | ReleaseFailed

  /** Where a transaction began: the mark no savepoint's name can find. */
  function BeginMark(world: World): Mark { Mark(Name("", 0), world.rows, world.outbox) }

  /** ROLLBACK: the tables as they were at the lowest mark. The trackers, the key sequence and the entities in memory stay. */
  function Rollback(s: TxState): TxState {
    if s.stack == [] then s else s.(world := s.world.(rows := s.stack[0].rows, outbox := s.stack[0].outbox), stack := [])
  }

  // ---- The database's savepoint stack -------------------------------------------------------

  /** The most recent mark of a name. */
  function FindMark(stack: seq<Mark>, name: Name, n: nat): (i: Option<nat>)
    requires n <= |stack|
    ensures i.Some? ==> i.value < n && stack[i.value].name == name
  {
    if n == 0 then None else if stack[n - 1].name == name then Some(n - 1) else FindMark(stack, name, n - 1)
  }

  function Found(stack: seq<Mark>, name: Name): (i: Option<nat>)
    ensures i.Some? ==> i.value < |stack| && stack[i.value].name == name
  {
    FindMark(stack, name, |stack|)
  }

  // ---- Operations ---------------------------------------------------------------------------

  /** An app-assigned key is stamped when the entity has none. */
  function Stamped(mem: Memory, p: Ptr, generated: int): Memory {
    if p.meta.appAssigned && At(mem, p).key == 0 then mem[p := At(mem, p).(key := generated)] else mem
  }

  function Simple(s: TxState, op: Op): TxState
    requires !op.Savepoint? && !op.SaveChanges?
  {
    var mem := s.world.mem;
    match op
    case Load(p, row) =>
      if Has(s.tracked.entries, p) then s
      else
        var loaded := mem[p := row];
        s.(world := s.world.(mem := loaded), tracked := AfterTrack(s.tracked, loaded, p, SnapshotOf(loaded, p)))
    case Add(p, generated) =>
      if Has(s.tracked.entries, p) then s
      else
        var stamped := Stamped(mem, p, generated);
        s.(world := s.world.(mem := stamped), tracked := AfterMarkAdded(s.tracked, stamped, p))
    case AttachAs(p, state) => s.(tracked := AfterAttach(s.tracked, mem, p, state))
    case DetachIt(p) => s.(tracked := AfterDetach(s.tracked, mem, p))
    case Remove(p) => if Has(s.tracked.entries, p) then s.(tracked := AfterRemove(s.tracked, mem, p)) else s
    case HardRemove(p) => if Has(s.tracked.entries, p) then s.(tracked := AfterHardRemove(s.tracked, p)) else s
    case Assign(p, fields) => s.(world := s.world.(mem := mem[p := At(mem, p).(fields := fields)]))
    case Raise(p, event) => s.(world := s.world.(mem := mem[p := At(mem, p).(events := At(mem, p).events + [event])]))
    case RawSql(rows) => s.(world := s.world.(rows := rows))
  }

  datatype Result = Result(tx: TxState, outcome: Outcome)

  function AfterSave(s: TxState, refuse: set<Ptr>): Result {
    var f := FlushAll(s.tracked, s.world, refuse);
    Result(s.(tracked := f.tracked, world := f.world, held := s.held + f.events), if f.ok then Done else Failed)
  }

  function Opened(s: TxState, base: string): TxState {
    s.(counter := s.counter + 1, stack := s.stack + [Mark(Name(base, s.counter + 1), s.world.rows, s.world.outbox)])
  }

  function Truncated(held: seq<int>, n: nat): seq<int> { if n <= |held| then held[..n] else held }

  /** Back to the mark, then the bookkeeping back to what was saved. */
  function Rewind(s: TxState, now: TxState, name: Name, faults: Faults): Result {
    var at := Found(now.stack, name);
    if faults.rewinding || at.None? then Result(now, RewindFailed)
    else
      Result(now.(world := now.world.(rows := now.stack[at.value].rows, outbox := now.stack[at.value].outbox),
                  stack := if faults.releasing then now.stack[..at.value + 1] else now.stack[..at.value],
                  tracked := AfterRestore(s.tracked.entries, now.world.mem),
                  held := Truncated(now.held, |s.held|)), Rewound)
  }

  function Release(s: TxState, now: TxState, name: Name, faults: Faults): Result {
    var at := Found(now.stack, name);
    if faults.releasing || at.None? then
      Result(now.(tracked := AfterRestore(s.tracked.entries, now.world.mem), held := Truncated(now.held, |s.held|)), ReleaseFailed)
    else Result(now.(stack := now.stack[..at.value]), Done)
  }

  /** The end of a savepoint whose body left the given state. */
  function EndOf(s: TxState, op: Op, inner: TxState): Result
    requires op.Savepoint?
  {
    var name := Name(op.base, s.counter + 1);
    if op.fails then Rewind(s, inner, name, op.faults)
    else
      var saved := AfterSave(inner, op.refuse);
      if saved.outcome.Failed? then Rewind(s, saved.tx, name, op.faults) else Release(s, saved.tx, name, op.faults)
  }

  function Exec(s: TxState, op: Op): Result
    decreases op, 1
  {
    match op
    case SaveChanges(refuse) => AfterSave(s, refuse)
    case Savepoint(base, body, _, _, faults) =>
      if faults.opening then Result(s.(counter := s.counter + 1), Failed)
      else
        EndOf(s, op, ExecAll(Opened(s, base), body))
    case _ => Result(Simple(s, op), Done)
  }

  /** What a function body does; it decides by itself what to make of an operation's error. */
  function ExecAll(s: TxState, ops: seq<Op>): TxState
    decreases ops, 0
  {
    if ops == [] then s else ExecAll(Exec(s, ops[0]).tx, ops[1..])
  }

  // ---- What every program keeps -------------------------------------------------------------

  ghost predicate Numbered(s: TxState) {
    && (forall i | 0 <= i < |s.stack| :: s.stack[i].name.number <= s.counter)
    && (forall i, j | 0 <= i < j < |s.stack| :: s.stack[i].name.number < s.stack[j].name.number)
  }

  /** Nothing older is lost: the marks and the held events of before come first, and newer marks have newer numbers. */
  ghost predicate Extends(s: TxState, now: TxState) {
    && s.counter <= now.counter && s.held <= now.held && s.stack <= now.stack
    && (forall i | |s.stack| <= i < |now.stack| :: now.stack[i].name.number > s.counter)
  }

  lemma ExtendsTwice(a: TxState, b: TxState, c: TxState)
    requires Extends(a, b) && Extends(b, c)
    ensures Extends(a, c)
  {
    assert a.held <= c.held && a.stack <= c.stack;
  }

  /** The number tells the mark of a savepoint from every mark its body left. */
  lemma {:induction false} OwnMark(stack: seq<Mark>, name: Name, i: nat, n: nat)
    requires i < n <= |stack| && stack[i].name == name && forall j | i < j < |stack| :: stack[j].name.number > name.number
    ensures FindMark(stack, name, n) == Some(i)
  {
    if i < n - 1 { OwnMark(stack, name, i, n - 1); }
  }

  lemma OpenedExtends(s: TxState, base: string)
    requires Numbered(s)
    ensures Numbered(Opened(s, base)) && Extends(s, Opened(s, base))
  {
  }

  /** At its end a savepoint finds its own mark, with the rows as they were when it start. */
  lemma MarkHolds(s: TxState, base: string, now: TxState)
    requires Numbered(s) && Extends(Opened(s, base), now)
    ensures Found(now.stack, Name(base, s.counter + 1)) == Some(|s.stack|)
    ensures now.stack[|s.stack|].rows == s.world.rows && now.stack[|s.stack|].outbox == s.world.outbox && now.stack[..|s.stack|] == s.stack
    ensures s.held <= now.held && Truncated(now.held, |s.held|) == s.held
  {
    var start := Opened(s, base);
    assert now.stack[|s.stack|] == start.stack[|s.stack|];
    OwnMark(now.stack, Name(base, s.counter + 1), |s.stack|, |now.stack|);
  }

  lemma {:induction false} ExecExtends(s: TxState, op: Op)
    requires Numbered(s)
    ensures Numbered(Exec(s, op).tx) && Extends(s, Exec(s, op).tx)
    decreases op, 1
  {
    hide Numbered, Extends, Simple, AfterSave, Rewind, Release, Opened;
    if op.SaveChanges? {
      SavedExtends(s, op.refuse);
    } else if !op.Savepoint? {
      SimpleExtends(s, op);
    } else if op.faults.opening {
      CountedExtends(s);
    } else {
      OpenedExtends(s, op.base);
      ExecAllExtends(Opened(s, op.base), op.body);
      EitherEndExtends(s, op, ExecAll(Opened(s, op.base), op.body));
    }
  }

  lemma EitherEndExtends(s: TxState, op: Op, inner: TxState)
    requires Numbered(s) && op.Savepoint? && !op.faults.opening && inner == ExecAll(Opened(s, op.base), op.body)
    requires Numbered(inner) && Extends(Opened(s, op.base), inner)
    ensures Numbered(Exec(s, op).tx) && Extends(s, Exec(s, op).tx)
  {
    hide Numbered, Extends, Opened, ExecAll, AfterSave, Rewind, Release, Simple;
    SavedExtends(inner, op.refuse);
    ExtendsTwice(Opened(s, op.base), inner, AfterSave(inner, op.refuse).tx);
    EndExtends(s, op.base, inner, op.faults);
    EndExtends(s, op.base, AfterSave(inner, op.refuse).tx, op.faults);
  }

  lemma SimpleExtends(s: TxState, op: Op)
    requires Numbered(s) && !op.Savepoint? && !op.SaveChanges?
    ensures Numbered(Simple(s, op)) && Extends(s, Simple(s, op))
  {
    hide AfterTrack, AfterMarkAdded, AfterAttach, AfterDetach, AfterRemove, AfterHardRemove;
  }

  lemma CountedExtends(s: TxState)
    requires Numbered(s)
    ensures Numbered(s.(counter := s.counter + 1)) && Extends(s, s.(counter := s.counter + 1))
  {
  }

  lemma SavedExtends(s: TxState, refuse: set<Ptr>)
    requires Numbered(s)
    ensures Numbered(AfterSave(s, refuse).tx) && Extends(s, AfterSave(s, refuse).tx)
  {
  }

  lemma RewindExtends(s: TxState, base: string, now: TxState, faults: Faults)
    requires Numbered(s) && Numbered(now) && Extends(Opened(s, base), now)
    ensures var r := Rewind(s, now, Name(base, s.counter + 1), faults).tx; Numbered(r) && Extends(s, r)
  {
    MarkHolds(s, base, now);
    hide Found, AfterRestore;
  }

  lemma ReleaseExtends(s: TxState, base: string, now: TxState, faults: Faults)
    requires Numbered(s) && Numbered(now) && Extends(Opened(s, base), now)
    ensures var r := Release(s, now, Name(base, s.counter + 1), faults).tx; Numbered(r) && Extends(s, r)
  {
    MarkHolds(s, base, now);
    hide Found, AfterRestore;
  }

  lemma EndExtends(s: TxState, base: string, now: TxState, faults: Faults)
    requires Numbered(s) && Numbered(now) && Extends(Opened(s, base), now)
    ensures var name := Name(base, s.counter + 1);
            && Numbered(Rewind(s, now, name, faults).tx) && Extends(s, Rewind(s, now, name, faults).tx)
            && Numbered(Release(s, now, name, faults).tx) && Extends(s, Release(s, now, name, faults).tx)
  {
    hide *;
    RewindExtends(s, base, now, faults);
    ReleaseExtends(s, base, now, faults);
  }

  lemma {:induction false} ExecAllExtends(s: TxState, ops: seq<Op>)
    requires Numbered(s)
    ensures Numbered(ExecAll(s, ops)) && Extends(s, ExecAll(s, ops))
    decreases ops, 0
  {
    if ops != [] {
      hide Numbered, Extends, Exec;
      ExecExtends(s, ops[0]);
      ExecAllExtends(Exec(s, ops[0]).tx, ops[1..]);
      ExtendsTwice(s, Exec(s, ops[0]).tx, ExecAll(s, ops));
    } else {
    }
  }

  /** The flush at the end of a savepoint fails. */
  ghost predicate FlushFails(s: TxState, op: Op)
    requires op.Savepoint?
  {
    AfterSave(ExecAll(Opened(s, op.base), op.body), op.refuse).outcome.Failed?
  }

  /**
   * The savepoint bracket: however deep the nesting, whatever the body did and wherever it failed, a savepoint that rewinds
   * leaves rows, records and held events exactly as at its start, and every older savepoint in place. Only a failing
   * ROLLBACK TO escapes this, and a savepoint whose body or flush failed rewinds unless that statement fails.
   */
  lemma RewoundAsBefore(s: TxState, op: Op)
    requires Numbered(s) && op.Savepoint?
    ensures var r := Exec(s, op);
            && (r.outcome.Rewound? || r.outcome.Failed? ==>
                  && r.tx.world.rows == s.world.rows && r.tx.world.outbox == s.world.outbox && r.tx.tracked.entries == s.tracked.entries && r.tx.held == s.held
                  && s.stack <= r.tx.stack)
            && (r.outcome.RewindFailed? ==> op.faults.rewinding)
            && (!op.faults.opening && !op.faults.rewinding && (op.fails || FlushFails(s, op)) ==> r.outcome.Rewound?)
            && (r.outcome.ReleaseFailed? ==> op.faults.releasing && r.tx.tracked.entries == s.tracked.entries && r.tx.held == s.held)
  {
    ExecExtends(s, op);
    if !op.faults.opening {
      var inner := ExecAll(Opened(s, op.base), op.body);
      OpenedExtends(s, op.base);
      ExecAllExtends(Opened(s, op.base), op.body);
      SavedExtends(inner, op.refuse);
      ExtendsTwice(Opened(s, op.base), inner, AfterSave(inner, op.refuse).tx);
      MarkHolds(s, op.base, inner);
      MarkHolds(s, op.base, AfterSave(inner, op.refuse).tx);
      hide AfterSave, ExecAll, Found, Opened;
    }
  }

  /** The flush at the end of the body, or none when the body failed. */
  function Closing(s: TxState, op: Op): Flushed
    requires op.Savepoint?
  {
    var inner := ExecAll(Opened(s, op.base), op.body);
    if op.fails then Flushed(inner.tracked, inner.world, [], false) else FlushAll(inner.tracked, inner.world, op.refuse)
  }

  /** What the savepoint's outcome is: the first of its own statements, its body and its flush that fails decides. */
  lemma SavepointOutcome(s: TxState, op: Op)
    requires Numbered(s) && op.Savepoint?
    ensures Exec(s, op).outcome ==
            if op.faults.opening then Failed
            else if Closing(s, op).ok then (if op.faults.releasing then ReleaseFailed else Done)
            else if op.faults.rewinding then RewindFailed else Rewound
  {
    hide *;
    if !op.faults.opening {
      var inner, name := ExecAll(Opened(s, op.base), op.body), Name(op.base, s.counter + 1);
      SavepointMark(s, op);
      SavepointEnds(s, op);
      ClosingIs(s, op);
      RewindLeaves(s, inner, name, op.faults);
      RewindLeaves(s, AfterSave(inner, op.refuse).tx, name, op.faults);
      ReleaseLeaves(s, AfterSave(inner, op.refuse).tx, name, op.faults);
    } else {
      OpeningFails(s, op);
    }
  }

  lemma OpeningFails(s: TxState, op: Op)
    requires op.Savepoint? && op.faults.opening
    ensures Exec(s, op) == Result(s.(counter := s.counter + 1), Failed)
  {
  }

  /** What is left: a released savepoint keeps the work and loses its mark, a rewound one the other way round. */
  lemma SavepointLeaves(s: TxState, op: Op)
    requires Numbered(s) && op.Savepoint? && !op.faults.opening
    ensures var r, closing, inner := Exec(s, op), Closing(s, op), ExecAll(Opened(s, op.base), op.body);
            && r.tx.world.mem == closing.world.mem && r.tx.world.nextKey == closing.world.nextKey && r.tx.counter == inner.counter
            && (r.outcome.Done? ==>
                  r.tx.world == closing.world && r.tx.tracked == closing.tracked && r.tx.held == inner.held + closing.events && r.tx.stack == s.stack)
            && (r.outcome.Rewound? ==>
                  && r.tx.world.rows == s.world.rows && r.tx.world.outbox == s.world.outbox
                  && r.tx.tracked.entries == s.tracked.entries && r.tx.held == s.held
                  && (if op.faults.releasing then s.stack <= r.tx.stack && |r.tx.stack| == |s.stack| + 1 else r.tx.stack == s.stack))
            && (r.outcome.ReleaseFailed? ==>
                  r.tx.world == closing.world && r.tx.tracked.entries == s.tracked.entries && r.tx.held == s.held && r.tx.stack == inner.stack)
            && (r.outcome.RewindFailed? ==>
                  r.tx.world == closing.world && r.tx.tracked == closing.tracked && r.tx.held == inner.held + closing.events && r.tx.stack == inner.stack)
  {
    hide *;
    var inner, name := ExecAll(Opened(s, op.base), op.body), Name(op.base, s.counter + 1);
    SavepointMark(s, op);
    SavepointEnds(s, op);
    ClosingIs(s, op);
    if op.fails {
      RewindLeaves(s, inner, name, op.faults);
    } else {
      RewindLeaves(s, AfterSave(inner, op.refuse).tx, name, op.faults);
      ReleaseLeaves(s, AfterSave(inner, op.refuse).tx, name, op.faults);
    }
  }

  /** The transaction after the flush that closes the savepoint. */
  lemma ClosingIs(s: TxState, op: Op)
    requires op.Savepoint?
    ensures var inner, closing := ExecAll(Opened(s, op.base), op.body), Closing(s, op);
            var saved := AfterSave(inner, op.refuse);
            && (op.fails ==> !closing.ok && closing.world == inner.world && closing.tracked == inner.tracked && closing.events == [])
            && (!op.fails ==>
                  && (saved.outcome.Failed? <==> !closing.ok) && saved.tx.counter == inner.counter
                  && saved.tx.world == closing.world && saved.tx.tracked == closing.tracked && saved.tx.held == inner.held + closing.events)
  {
    hide ExecAll, FlushAll, Opened;
  }

  /** The mark that a name finds is the one above the stack of before. */
  ghost predicate MarkedBy(s: TxState, now: TxState, name: Name) {
    && Found(now.stack, name) == Some(|s.stack|) && |s.stack| < |now.stack| && now.stack[..|s.stack|] == s.stack
    && now.stack[|s.stack|].rows == s.world.rows && now.stack[|s.stack|].outbox == s.world.outbox
    && Truncated(now.held, |s.held|) == s.held
  }

  lemma RewindLeaves(s: TxState, now: TxState, name: Name, faults: Faults)
    requires MarkedBy(s, now, name)
    ensures var r := Rewind(s, now, name, faults);
            && r.tx.world.mem == now.world.mem && r.tx.world.nextKey == now.world.nextKey && r.tx.counter == now.counter
            && (if faults.rewinding then r == Result(now, RewindFailed)
                else && r.outcome.Rewound? && r.tx.world.rows == s.world.rows && r.tx.world.outbox == s.world.outbox
                     && r.tx.tracked.entries == s.tracked.entries && r.tx.held == s.held
                     && (if faults.releasing then s.stack <= r.tx.stack && |r.tx.stack| == |s.stack| + 1 else r.tx.stack == s.stack))
  {
    hide Found, Truncated, Reindexed;
  }

  lemma ReleaseLeaves(s: TxState, now: TxState, name: Name, faults: Faults)
    requires MarkedBy(s, now, name)
    ensures var r := Release(s, now, name, faults);
            && r.tx.world == now.world && r.tx.counter == now.counter
            && (if faults.releasing then
                  r.outcome.ReleaseFailed? && r.tx.tracked.entries == s.tracked.entries && r.tx.held == s.held && r.tx.stack == now.stack
                else r.outcome.Done? && r.tx.tracked == now.tracked && r.tx.held == now.held && r.tx.stack == s.stack)
  {
    hide Found, Truncated, Reindexed;
  }

  /** The body and the flush leave the savepoint's own mark where it was put. */
  lemma SavepointMark(s: TxState, op: Op)
    requires Numbered(s) && op.Savepoint?
    ensures var inner, name := ExecAll(Opened(s, op.base), op.body), Name(op.base, s.counter + 1);
            && MarkedBy(s, inner, name) && MarkedBy(s, AfterSave(inner, op.refuse).tx, name)
            && AfterSave(inner, op.refuse).tx.stack == inner.stack
  {
    var inner := ExecAll(Opened(s, op.base), op.body);
    OpenedExtends(s, op.base);
    ExecAllExtends(Opened(s, op.base), op.body);
    SavedExtends(inner, op.refuse);
    ExtendsTwice(Opened(s, op.base), inner, AfterSave(inner, op.refuse).tx);
    MarkHolds(s, op.base, inner);
    MarkHolds(s, op.base, AfterSave(inner, op.refuse).tx);
    SaveKeepsStack(inner, op.refuse);
    hide AfterSave, ExecAll, Found, Opened;
  }

  lemma SaveKeepsStack(s: TxState, refuse: set<Ptr>)
    ensures AfterSave(s, refuse).tx.stack == s.stack
  {
    hide FlushAll;
  }

  // ---- Primary-key slots --------------------------------------------------------------------

  /** Every slot is live and holds the record that has that key now. */
  ghost predicate SlotsLive(t: Contents, mem: Memory) {
    forall k | k in t.byPK :: t.byPK[k].live && Has(t.entries, t.byPK[k].entity) && KeyOf(mem, t.byPK[k].entity) == Some(k)
  }

  lemma {:induction false} ReindexedLive(entries: seq<Entry>, mem: Memory, n: nat)
    requires n <= |entries|
    ensures SlotsLive(Contents(entries, Reindexed(entries, mem, n)), mem)
  {
    if n > 0 {
      ReindexedLive(entries, mem, n - 1);
      assert Has(entries, entries[n - 1].entity);
    }
  }

  lemma {:induction false} WithoutKeeps(entries: seq<Entry>, p: Ptr, n: nat, q: Ptr)
    requires n <= |entries| && p != q && exists i | 0 <= i < n :: entries[i].entity == q
    ensures Has(Without(entries, p, n), q)
  {
    var rest := Without(entries, p, n - 1);
    if entries[n - 1].entity == q {
      assert Without(entries, p, n)[|rest|].entity == q;
    } else {
      WithoutKeeps(entries, p, n - 1, q);
      var i :| 0 <= i < |rest| && rest[i].entity == q;
      assert Without(entries, p, n)[i].entity == q;
    }
  }

  lemma DetachLive(t: Contents, mem: Memory, p: Ptr)
    requires SlotsLive(t, mem)
    ensures SlotsLive(AfterDetach(t, mem, p), mem)
  {
    var after := AfterDetach(t, mem, p);
    if Has(t.entries, p) {
      forall k | k in after.byPK
        ensures after.byPK[k].live && Has(after.entries, after.byPK[k].entity) && KeyOf(mem, after.byPK[k].entity) == Some(k)
      {
        WithoutKeeps(t.entries, p, |t.entries|, t.byPK[k].entity);
      }
    }
  }

  /** The same pointers are tracked. */
  ghost predicate SamePointers(a: seq<Entry>, b: seq<Entry>) { forall p :: Has(a, p) <==> Has(b, p) }

  lemma ByPosition(a: seq<Entry>, b: seq<Entry>)
    requires |a| == |b| && forall i | 0 <= i < |a| :: a[i].entity == b[i].entity
    ensures SamePointers(a, b)
  {
    forall p ensures Has(a, p) <==> Has(b, p) {
      if Has(a, p) {
        var i :| 0 <= i < |a| && a[i].entity == p;
        assert b[i].entity == p;
      }
      if Has(b, p) {
        var i :| 0 <= i < |b| && b[i].entity == p;
        assert a[i].entity == p;
      }
    }
  }

  lemma WithLive(t: Contents, mem: Memory, e: Entry, indexed: bool)
    requires SlotsLive(t, mem)
    ensures SlotsLive(With(t, mem, e, indexed), mem)
  {
    var after := With(t, mem, e, indexed);
    forall p | Has(t.entries, p) || p == e.entity ensures Has(after.entries, p) {
      if Has(t.entries, p) {
        var i :| 0 <= i < |t.entries| && t.entries[i].entity == p;
        assert after.entries[i].entity == p;
      } else {
        assert after.entries[|t.entries|].entity == p;
      }
    }
  }

  /** Keys of tracked entities that are set stay; then the slots stay live as memory changes. */
  lemma KeptKeysLive(t: Contents, mem: Memory, later: Memory)
    requires SlotsLive(t, mem)
    requires forall p | Has(t.entries, p) && At(mem, p).key != 0 :: At(later, p).key == At(mem, p).key
    ensures SlotsLive(t, later)
  {
  }

  lemma SimpleLive(s: TxState, op: Op)
    requires !op.Savepoint? && !op.SaveChanges? && SlotsLive(s.tracked, s.world.mem)
    ensures SlotsLive(Simple(s, op).tracked, Simple(s, op).world.mem)
  {
    var mem, now := s.world.mem, Simple(s, op);
    match op
    case Load(p, row) =>
      KeptKeysLive(s.tracked, mem, now.world.mem);
      WithLive(s.tracked, now.world.mem, NewEntry(p, Unchanged, SnapshotOf(now.world.mem, p), false, true), true);
    case Add(p, generated) =>
      KeptKeysLive(s.tracked, mem, now.world.mem);
      WithLive(s.tracked, now.world.mem, NewEntry(p, EntityState.Added, None, false, false), true);
    case AttachAs(p, state) =>
      if Has(s.tracked.entries, p) {
        ByPosition(s.tracked.entries, now.tracked.entries);
      } else {
        WithLive(s.tracked, mem, NewEntry(p, state, if state.Unchanged? then SnapshotOf(mem, p) else None, state.Modified?, state.Unchanged?), false);
      }
    case DetachIt(p) => DetachLive(s.tracked, mem, p);
    case Remove(p) =>
      if Has(s.tracked.entries, p) && PendingInsert(s.tracked.entries, p) {
        DetachLive(s.tracked, mem, p);
      } else {
        ByPosition(s.tracked.entries, now.tracked.entries);
      }
    case HardRemove(p) => ByPosition(s.tracked.entries, now.tracked.entries);
    case Assign(p, _) => KeptKeysLive(s.tracked, mem, now.world.mem);
    case Raise(p, _) => KeptKeysLive(s.tracked, mem, now.world.mem);
    case RawSql(_) =>
  }

  // ---- Flushes keep slots live --------------------------------------------------------------

  /** No entity with a generated key carries one before its insert. */
  ghost predicate FreshKeys(entries: seq<Entry>, mem: Memory) {
    forall e | e in entries && e.state.Added? && !e.flushed && !e.entity.meta.appAssigned :: At(mem, e.entity).key == 0
  }

  lemma StatementKeepsKeys(w: World, e: Entry, refuse: set<Ptr>, p: Ptr)
    requires Statement(w, e, refuse).Some?
    requires e.state.Added? && !e.entity.meta.appAssigned ==> At(w.mem, e.entity).key == 0
    ensures var next := Statement(w, e, refuse).value;
            At(w.mem, p).key != 0 ==> At(next.mem, p).key == At(w.mem, p).key
    ensures p != e.entity ==> At(Statement(w, e, refuse).value.mem, p) == At(w.mem, p)
  {
  }

  lemma {:induction false} RunKeepsKeys(w: World, work: seq<Entry>, n: nat, refuse: set<Ptr>, p: Ptr)
    requires n <= |work| && OneEach(work)
    requires forall i | 0 <= i < |work| && work[i].state.Added? && !work[i].entity.meta.appAssigned :: At(w.mem, work[i].entity).key == 0
    ensures At(w.mem, p).key != 0 ==> At(RunList(w, work, n, refuse).world.mem, p).key == At(w.mem, p).key
    ensures (forall i | 0 <= i < n :: work[i].entity != p) ==> At(RunList(w, work, n, refuse).world.mem, p) == At(w.mem, p)
  {
    if n > 0 {
      RunKeepsKeys(w, work, n - 1, refuse, p);
      RunKeepsKeys(w, work, n - 1, refuse, work[n - 1].entity);
      var r := RunList(w, work, n - 1, refuse);
      if r.ok && Statement(r.world, work[n - 1], refuse).Some? { StatementKeepsKeys(r.world, work[n - 1], refuse, p); }
    }
  }

  lemma FlushPointers(t: Contents, w: World, refuse: set<Ptr>)
    requires OneEach(t.entries)
    ensures var now := FlushAll(t, w, refuse).tracked;
            now.byPK == t.byPK && OneEach(now.entries) && SamePointers(t.entries, now.entries)
  {
    var now := FlushAll(t, w, refuse).tracked;
    forall i | 0 <= i < |t.entries| ensures |now.entries| == |t.entries| && now.entries[i].entity == t.entries[i].entity { }
    ByPosition(t.entries, now.entries);
  }

  lemma WorkIsFresh(t: Contents, w: World, i: nat)
    requires FreshKeys(t.entries, w.mem) && i < |Work(AfterDetect(t, w.mem).entries)|
    ensures var e := Work(AfterDetect(t, w.mem).entries)[i];
            e.state.Added? && !e.entity.meta.appAssigned ==> At(w.mem, e.entity).key == 0
  {
    var found := AfterDetect(t, w.mem).entries;
    var e := Work(found)[i];
    assert e in Work(found);
    assert e in found && !e.flushed;
    var j :| 0 <= j < |found| && found[j] == e;
    assert e.state.Added? ==> t.entries[j] == e;
  }

  /** A flush sets keys that were zero and leaves the others. */
  lemma FlushKeepsKeys(t: Contents, w: World, refuse: set<Ptr>, p: Ptr)
    requires OneEach(t.entries) && FreshKeys(t.entries, w.mem) && At(w.mem, p).key != 0
    ensures At(FlushAll(t, w, refuse).world.mem, p).key == At(w.mem, p).key
  {
    var found := AfterDetect(t, w.mem).entries;
    forall i | 0 <= i < |found| ensures found[i].entity == t.entries[i].entity { }
    WorkOnce(found);
    forall i | 0 <= i < |Work(found)| && Work(found)[i].state.Added? && !Work(found)[i].entity.meta.appAssigned
      ensures At(w.mem, Work(found)[i].entity).key == 0
    {
      WorkIsFresh(t, w, i);
    }
    RunKeepsKeys(w, Work(found), |Work(found)|, refuse, p);
  }

  lemma FlushLive(s: TxState, refuse: set<Ptr>)
    requires OneEach(s.tracked.entries) && SlotsLive(s.tracked, s.world.mem) && FreshKeys(s.tracked.entries, s.world.mem)
    ensures var now := AfterSave(s, refuse).tx; OneEach(now.tracked.entries) && SlotsLive(now.tracked, now.world.mem)
  {
    hide FlushAll, FreshKeys, OneEach, SlotsLive, SamePointers;
    FlushPointers(s.tracked, s.world, refuse);
    var mem := FlushAll(s.tracked, s.world, refuse).world.mem;
    forall p | At(s.world.mem, p).key != 0 ensures At(mem, p).key == At(s.world.mem, p).key {
      FlushKeepsKeys(s.tracked, s.world, refuse, p);
    }
    SlotsMoved(s.tracked, FlushAll(s.tracked, s.world, refuse).tracked, s.world.mem, mem);
  }

  lemma SlotsMoved(t: Contents, now: Contents, mem: Memory, later: Memory)
    requires SlotsLive(t, mem) && SamePointers(t.entries, now.entries) && now.byPK == t.byPK
    requires forall p :: At(mem, p).key != 0 ==> At(later, p).key == At(mem, p).key
    ensures SlotsLive(now, later)
  {
  }

  // ---- Slots over whole programs ------------------------------------------------------------

  ghost predicate Live(s: TxState) { OneEach(s.tracked.entries) && SlotsLive(s.tracked, s.world.mem) }

  /** At each flush of the program, no entity with a generated key carries one before its insert. */
  ghost predicate Steady(s: TxState, op: Op)
    decreases op, 1
  {
    match op
    case SaveChanges(_) => FreshKeys(s.tracked.entries, s.world.mem)
    case Savepoint(base, body, fails, _, faults) =>
      faults.opening ||
      (&& SteadyAll(Opened(s, base), body)
       && var inner := ExecAll(Opened(s, base), body); fails || FreshKeys(inner.tracked.entries, inner.world.mem))
    case _ => true
  }

  ghost predicate SteadyAll(s: TxState, ops: seq<Op>)
    decreases ops, 0
  {
    ops == [] || (Steady(s, ops[0]) && SteadyAll(Exec(s, ops[0]).tx, ops[1..]))
  }

  lemma {:induction false} WithoutOneEach(entries: seq<Entry>, p: Ptr, n: nat)
    requires OneEach(entries) && n <= |entries|
    ensures OneEach(Without(entries, p, n))
    ensures forall e | e in Without(entries, p, n) :: exists i | 0 <= i < n :: entries[i] == e
  {
    if n > 0 {
      WithoutOneEach(entries, p, n - 1);
      var rest := Without(entries, p, n - 1);
      forall i | 0 <= i < |rest| ensures rest[i].entity != entries[n - 1].entity { assert rest[i] in rest; }
    }
  }

  lemma SimpleOneEach(s: TxState, op: Op)
    requires OneEach(s.tracked.entries) && !op.Savepoint? && !op.SaveChanges?
    ensures OneEach(Simple(s, op).tracked.entries)
  {
    if op.DetachIt? || op.Remove? { WithoutOneEach(s.tracked.entries, op.p, |s.tracked.entries|); }
  }

  lemma RestoredLive(s: TxState, now: TxState, name: Name, faults: Faults)
    requires Live(s) && Live(now)
    ensures Live(Rewind(s, now, name, faults).tx) && Live(Release(s, now, name, faults).tx)
  {
    ReindexedLive(s.tracked.entries, now.world.mem, |s.tracked.entries|);
    hide SlotsLive, Found, OneEach, Reindexed;
  }

  /** Over every steady program each slot stays live at the key of its own record, and no entity is tracked twice. */
  lemma {:induction false} ExecLive(s: TxState, op: Op)
    requires Live(s) && Steady(s, op)
    ensures Live(Exec(s, op).tx)
    decreases op, 1
  {
    hide Simple, AfterSave, Rewind, Release, Opened, FreshKeys;
    if op.SaveChanges? {
      FlushLive(s, op.refuse);
    } else if !op.Savepoint? {
      SimpleLive(s, op);
      SimpleOneEach(s, op);
    } else if !op.faults.opening {
      OpenedLive(s, op.base);
      ExecAllLive(Opened(s, op.base), op.body);
      EitherEndLive(s, op, ExecAll(Opened(s, op.base), op.body));
    }
  }

  lemma OpenedLive(s: TxState, base: string)
    requires Live(s)
    ensures Live(Opened(s, base))
  {
  }

  lemma SavedLive(s: TxState, refuse: set<Ptr>)
    requires Live(s) && FreshKeys(s.tracked.entries, s.world.mem)
    ensures Live(AfterSave(s, refuse).tx)
  {
    FlushLive(s, refuse);
  }

  lemma EitherEndLive(s: TxState, op: Op, inner: TxState)
    requires Live(s) && Live(inner) && op.Savepoint? && !op.faults.opening && inner == ExecAll(Opened(s, op.base), op.body)
    requires !op.fails ==> FreshKeys(inner.tracked.entries, inner.world.mem)
    ensures Live(Exec(s, op).tx)
  {
    var name := Name(op.base, s.counter + 1);
    hide *;
    SavepointEnds(s, op);
    RestoredLive(s, inner, name, op.faults);
    if !op.fails {
      SavedLive(inner, op.refuse);
      RestoredLive(s, AfterSave(inner, op.refuse).tx, name, op.faults);
    }
  }

  lemma SavepointEnds(s: TxState, op: Op)
    requires op.Savepoint? && !op.faults.opening
    ensures var name, inner := Name(op.base, s.counter + 1), ExecAll(Opened(s, op.base), op.body);
            var saved := AfterSave(inner, op.refuse);
            Exec(s, op) == if op.fails then Rewind(s, inner, name, op.faults)
                           else if saved.outcome.Failed? then Rewind(s, saved.tx, name, op.faults)
                           else Release(s, saved.tx, name, op.faults)
  {
    hide AfterSave, Rewind, Release, Opened, ExecAll;
  }

  lemma {:induction false} ExecAllLive(s: TxState, ops: seq<Op>)
    requires Live(s) && SteadyAll(s, ops)
    ensures Live(ExecAll(s, ops))
    decreases ops, 0
  {
    hide Live, Exec, Steady;
    if ops != [] {
      ExecLive(s, ops[0]);
      ExecAllLive(Exec(s, ops[0]).tx, ops[1..]);
    }
  }

  /**
   * A key that changes leaves a dead slot: after detaching an entity its old slot is gone exactly when the entity still has
   * the key it was indexed under.
   */
  lemma ChangedKeyLeavesDeadSlot(t: Contents, mem: Memory, p: Ptr, k: Key, later: Memory)
    requires SlotsLive(t, mem) && k in t.byPK && t.byPK[k].entity == p
    ensures k !in AfterDetach(t, later, p).byPK <==> KeyOf(later, p) == Some(k)
    ensures k in AfterDetach(t, later, p).byPK ==> !AfterDetach(t, later, p).byPK[k].live
  {
  }

  const ORDER := Meta("order", false, false, false, false)

  function Staged(p: Ptr): Entry { NewEntry(p, EntityState.Added, None, false, false) }

  /** A flush that has one insert to send, after entities flushed before. */
  lemma OneInsert(s: TxState, done: seq<Entry>, p: Ptr)
    requires |done| <= 1 && (forall i | 0 <= i < |done| :: done[i].flushed && done[i].state.Added?)
    requires s.tracked.entries == done + [Staged(p)] && p.meta == ORDER && Key("order", s.world.nextKey) !in s.world.rows
    ensures AfterSave(s, {}).outcome.Done? && FlushAll(s.tracked, s.world, {}).events == At(s.world.mem, p).events
    ensures var now := AfterSave(s, {}).tx;
            && now.held == s.held + At(s.world.mem, p).events
            && now.tracked.entries == done + [Staged(p).(flushed := true)] && now.tracked.byPK == s.tracked.byPK
            && now.world == Insert(s.world, p).value
  {
    var found, e, n := AfterDetect(s.tracked, s.world.mem).entries, Staged(p), |done|;
    assert found == s.tracked.entries;
    assert found[n] == e && forall i | 0 <= i < n :: found[i] == done[i];
    SkipFlushed(found, EntityState.Added, n);
    SkipFlushed(found, Modified, n);
    SkipFlushed(found, Deleted, n);
    assert Work(found) == [e];
    assert RunList(s.world, [e], 1, {}) == Ran(Insert(s.world, p).value, true) by { assert RunList(s.world, [e], 0, {}) == Ran(s.world, true); }
    assert AllMarked(found) == done + [e.(flushed := true)];
    assert EventsOf(Insert(s.world, p).value.mem, [e], 1) == [] + At(s.world.mem, p).events by {
      assert EventsOf(Insert(s.world, p).value.mem, [e], 0) == [];
    }
  }

  lemma {:induction false} SkipFlushed(entries: seq<Entry>, state: EntityState, n: nat)
    requires n <= |entries| && forall i | 0 <= i < n :: entries[i].flushed
    ensures Pending(entries, state, n) == []
  {
    if n > 0 { SkipFlushed(entries, state, n - 1); }
  }

  const CARRIED := Ptr(3, ORDER)

  /** An entity that comes with a key of its own, of a model whose keys the database generates. */
  const CARRYING := TxState(Contents([], map[]), World(map[], 1, map[CARRIED := Entity(7, map[], 0, [])], []), [], 0, [])

  const CARRIED_SLOT: map<Key, Slot> := map[Key("order", 7) := Slot(CARRIED, true)]

  lemma AddCarried()
    ensures Exec(CARRYING, Add(CARRIED, 0)) == Result(CARRYING.(tracked := Contents([Staged(CARRIED)], CARRIED_SLOT)), Done)
  {
    assert [] + [Staged(CARRIED)] == [Staged(CARRIED)];
    assert KeyOf(CARRYING.world.mem, CARRIED) == Some(Key("order", 7));
  }

  lemma SaveCarried(added: TxState)
    requires added == CARRYING.(tracked := Contents([Staged(CARRIED)], CARRIED_SLOT))
    ensures !FreshKeys(added.tracked.entries, added.world.mem)
    ensures var saved := AfterSave(added, {}).tx;
            saved.tracked == Contents([Staged(CARRIED).(flushed := true)], CARRIED_SLOT) && At(saved.world.mem, CARRIED).key == 1
  {
    hide AfterSave;
    assert [] + [Staged(CARRIED)] == [Staged(CARRIED)];
    OneInsert(added, [], CARRIED);
    assert Staged(CARRIED) in added.tracked.entries;
  }

  lemma DetachCarried(s: TxState)
    requires s.tracked == Contents([Staged(CARRIED).(flushed := true)], CARRIED_SLOT) && At(s.world.mem, CARRIED).key == 1
    ensures var end := Simple(s, DetachIt(CARRIED));
            end.tracked.entries == [] && Key("order", 7) in end.tracked.byPK && !end.tracked.byPK[Key("order", 7)].live
  {
    assert s.tracked.entries[0].entity == CARRIED;
    assert Without(s.tracked.entries, CARRIED, 1) == [] by { assert Without(s.tracked.entries, CARRIED, 0) == []; }
    assert KeyOf(s.world.mem, CARRIED) == Some(Key("order", 1));
  }

  /** Add indexes it under the key it came with, its insert gives it another, and Detach looks for that one. */
  lemma CarriedKeyLeavesDeadSlot()
    ensures var added := Exec(CARRYING, Add(CARRIED, 0)).tx;
            var saved := Exec(added, SaveChanges({})).tx;
            var end := Exec(saved, DetachIt(CARRIED)).tx;
            && !FreshKeys(added.tracked.entries, added.world.mem)
            && end.tracked.entries == [] && Key("order", 7) in end.tracked.byPK && !end.tracked.byPK[Key("order", 7)].live
  {
    hide Simple, AfterSave, Insert, FreshKeys;
    AddCarried();
    SaveCarried(Exec(CARRYING, Add(CARRIED, 0)).tx);
    DetachCarried(AfterSave(Exec(CARRYING, Add(CARRIED, 0)).tx, {}).tx);
  }
}
