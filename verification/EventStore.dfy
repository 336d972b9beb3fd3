/** The calls of the event store. */
module EventStore {
  // The event store's own calls: appending a batch, walking a result set, projecting a batch under a checkpoint.

  import opened Options
  import opened OrderedSeqs
  import opened EventLog
  import opened Projection

  // ---- Append -------------------------------------------------------------------------------

  datatype Outcome =
    | Appended
    | Unnamed(index: nat)       // the event at this index has no type name, or no JSON form
    | Concurrency(index: nat)   // the version exists: the stream moved on
    | Waiting(index: nat)       // another open transaction holds the version; the statement blocks until it ends

  predicate Exists(log: Log, x: nat, stream: string, version: int)
    requires x in log.open
  {
    (exists e | e in log.rows :: e.stream == stream && e.version == version) || PendingVersion(log.open[x], stream, version)
  }

  /** The rows an append leaves behind, from its i-th event on. An event without a payload cannot be named. */
  function AppendFrom(log: Log, x: nat, stream: string, expected: int, events: seq<Option<int>>, i: nat): (Log, Outcome)
    requires x in log.open && !log.open[x].failed && i <= |events|
    decreases |events| - i
  {
    if i == |events| then (log, Appended)
    else if events[i].None? then (log, Unnamed(i))
    else if Exists(log, x, stream, expected + i + 1) then (Apply(log, InsertFails(x)), Concurrency(i))
    else if Taken(log, stream, expected + i + 1) then (log, Waiting(i))
    else AppendFrom(Apply(log, Insert(x, stream, expected + i + 1, events[i].value)), x, stream, expected, events, i + 1)
  }

  /** The event has a name, and no row of the stream has its version yet, committed or not. */
  predicate CanInsert(log: Log, stream: string, version: int, event: Option<int>) { event.Some? && !Taken(log, stream, version) }

  /** How many events an append gets in before the one it stops at. */
  function InsertedBy(r: Outcome, all: nat): nat {
    match r
    case Appended => all
    case Unnamed(i) => i
    case Concurrency(i) => i
    case Waiting(i) => i
  }

  /** The log after the first n events of an append were inserted, each the next version of its stream, at the next positions. */
  ghost predicate HasInserted(log: Log, after: Log, x: nat, stream: string, expected: int, events: seq<Option<int>>, n: nat) {
    && x in log.open && n <= |events| && (forall j | 0 <= j < n :: events[j].Some?)
    && after.rows == log.rows && after.nextXid == log.nextXid && after.open.Keys == log.open.Keys
    && (forall y | y in log.open && y != x :: after.open[y] == log.open[y])
    && var was, now := log.open[x].pending, after.open[x].pending;
       && |now| == |was| + n && now[..|was|] == was
       && forall j | 0 <= j < n :: now[|was| + j] == Event(stream, expected + j + 1, Position(x, log.nextPos + j), events[j].value)
  }

  /** An append that stops at an event stops at the first it cannot insert, for the reason it names, and all before it are there. */
  ghost predicate AppendedExactly(log: Log, after: Log, x: nat, stream: string, expected: int, events: seq<Option<int>>, r: Outcome)
    requires x in log.open
  {
    var n := InsertedBy(r, |events|);
    && n <= |events| && (forall j | 0 <= j < n :: CanInsert(log, stream, expected + j + 1, events[j]))
    && (r.Appended? || (n < |events| && !CanInsert(log, stream, expected + n + 1, events[n])))
    && (r.Unnamed? <==> n < |events| && events[n].None?)
    && (r.Concurrency? <==> n < |events| && events[n].Some? && Exists(log, x, stream, expected + n + 1))
    && HasInserted(log, after, x, stream, expected, events, n)
    && (after.open[x].failed <==> r.Concurrency?) && after.nextPos == log.nextPos + n + if r.Concurrency? then 1 else 0
  }

  /** The state of an append at its i-th event. */
  ghost predicate Midway(log: Log, now: Log, x: nat, stream: string, expected: int, events: seq<Option<int>>, i: nat) {
    && HasInserted(log, now, x, stream, expected, events, i) && now.nextPos == log.nextPos + i && !now.open[x].failed
    && forall j | 0 <= j < i :: CanInsert(log, stream, expected + j + 1, events[j])
  }

  lemma NewVersions(log: Log, now: Log, x: nat, stream: string, expected: int, events: seq<Option<int>>, i: nat, j: nat)
    requires HasInserted(log, now, x, stream, expected, events, i) && j < |now.open[x].pending|
    ensures j < |log.open[x].pending| || now.open[x].pending[j].version <= expected + i
  {
    var k := j - |log.open[x].pending|;
    if k >= 0 { assert events[k].Some? && now.open[x].pending[|log.open[x].pending| + k].version == expected + k + 1; }
  }

  /** What an append inserted so far takes no later version. */
  lemma LaterVersionsFree(log: Log, now: Log, x: nat, stream: string, expected: int, events: seq<Option<int>>, i: nat, version: int)
    requires HasInserted(log, now, x, stream, expected, events, i) && version > expected + i
    ensures Taken(now, stream, version) <==> Taken(log, stream, version)
    ensures Exists(now, x, stream, version) <==> Exists(log, x, stream, version)
  {
    var was, all := log.open[x].pending, now.open[x].pending;
    if PendingVersion(log.open[x], stream, version) {
      var j :| 0 <= j < |was| && was[j].stream == stream && was[j].version == version;
      assert all[..|was|][j] == was[j] && all[j] in all;
    }
    if PendingVersion(now.open[x], stream, version) {
      var j :| 0 <= j < |all| && all[j].stream == stream && all[j].version == version;
      NewVersions(log, now, x, stream, expected, events, i, j);
      assert all[..|was|][j] == all[j] && was[j] in was;
    }
    hide PendingVersion;
    if y :| y in log.open && PendingVersion(log.open[y], stream, version) { assert PendingVersion(now.open[y], stream, version); }
    if y :| y in now.open && PendingVersion(now.open[y], stream, version) { assert PendingVersion(log.open[y], stream, version); }
  }

  lemma MidwayNext(log: Log, now: Log, x: nat, stream: string, expected: int, events: seq<Option<int>>, i: nat)
    requires Midway(log, now, x, stream, expected, events, i) && i < |events|
    requires events[i].Some? && !Taken(now, stream, expected + i + 1)
    ensures Midway(log, Apply(now, Insert(x, stream, expected + i + 1, events[i].value)), x, stream, expected, events, i + 1)
  {
    LaterVersionsFree(log, now, x, stream, expected, events, i, expected + i + 1);
    var next := Apply(now, Insert(x, stream, expected + i + 1, events[i].value));
    var was, held := log.open[x].pending, now.open[x].pending;
    assert next.open[x].pending[..|was|] == held[..|was|];
  }

  lemma StopsExactly(log: Log, now: Log, x: nat, stream: string, expected: int, events: seq<Option<int>>, i: nat, r: Outcome, after: Log)
    requires Midway(log, now, x, stream, expected, events, i)
    requires r.Appended? ==> i == |events| && after == now
    requires !r.Appended? ==> i < |events| && InsertedBy(r, |events|) == i
    requires r.Unnamed? ==> events[i].None? && after == now
    requires r.Concurrency? ==> events[i].Some? && Exists(now, x, stream, expected + i + 1) && after == Apply(now, InsertFails(x))
    requires r.Waiting? ==> events[i].Some? && Taken(now, stream, expected + i + 1) && !Exists(now, x, stream, expected + i + 1) && after == now
    ensures AppendedExactly(log, after, x, stream, expected, events, r)
  {
    LaterVersionsFree(log, now, x, stream, expected, events, i, expected + i + 1);
  }

  lemma StartsMidway(log: Log, x: nat, stream: string, expected: int, events: seq<Option<int>>)
    requires x in log.open && !log.open[x].failed
    ensures Midway(log, log, x, stream, expected, events, 0)
  {
  }

  class Store {
    var log: Log

    constructor ()
      ensures log == EMPTY
    {
      log := EMPTY;
    }

    method Append(x: nat, stream: string, expectedVersion: int, events: seq<Option<int>>) returns (r: Outcome)
      requires x in log.open && !log.open[x].failed
      modifies this
      ensures (log, r) == AppendFrom(old(log), x, stream, expectedVersion, events, 0)
      ensures AppendedExactly(old(log), log, x, stream, expectedVersion, events, r)
    {
      hide AppendedExactly, HasInserted, CanInsert;
      StartsMidway(log, x, stream, expectedVersion, events);
      for i := 0 to |events|
        invariant x in log.open && !log.open[x].failed
        invariant AppendFrom(log, x, stream, expectedVersion, events, i) == AppendFrom(old(log), x, stream, expectedVersion, events, 0)
        invariant Midway(old(log), log, x, stream, expectedVersion, events, i)
      {
        if events[i].None? {
          StopsExactly(old(log), log, x, stream, expectedVersion, events, i, Unnamed(i), log);
          return Unnamed(i);
        }
        var version := expectedVersion + i + 1;
        if Exists(log, x, stream, version) {
          StopsExactly(old(log), log, x, stream, expectedVersion, events, i, Concurrency(i), Apply(log, InsertFails(x)));
          log := Apply(log, InsertFails(x));
          return Concurrency(i);
        }
        if Taken(log, stream, version) {
          StopsExactly(old(log), log, x, stream, expectedVersion, events, i, Waiting(i), log);
          return Waiting(i);
        }
        MidwayNext(old(log), log, x, stream, expectedVersion, events, i);
        log := Apply(log, Insert(x, stream, version, events[i].value));
      }
      StopsExactly(old(log), log, x, stream, expectedVersion, events, |events|, Appended, log);
      r := Appended;
    }
  }

  /** What an append leaves, and why it stops, in full; it is decided by the log it began on. */
  lemma {:induction false} AppendExact(log: Log, now: Log, x: nat, stream: string, expected: int, events: seq<Option<int>>, i: nat)
    requires Midway(log, now, x, stream, expected, events, i)
    ensures var (after, r) := AppendFrom(now, x, stream, expected, events, i);
            AppendedExactly(log, after, x, stream, expected, events, r)
    decreases |events| - i
  {
    hide AppendedExactly, CanInsert, Taken, Exists;
    var (after, r) := AppendFrom(now, x, stream, expected, events, i);
    if i < |events| && events[i].Some? && !Exists(now, x, stream, expected + i + 1) && !Taken(now, stream, expected + i + 1) {
      MidwayNext(log, now, x, stream, expected, events, i);
      AppendExact(log, Apply(now, Insert(x, stream, expected + i + 1, events[i].value)), x, stream, expected, events, i + 1);
    } else {
      StopsExactly(log, now, x, stream, expected, events, i, r, after);
    }
  }

  function RunFrom(log: Log, steps: seq<Step>): Log
    requires PossibleFrom(log, steps)
    decreases |steps|
  {
    if steps == [] then log else RunFrom(Apply(log, steps[0]), steps[1..])
  }

  predicate PossibleFrom(log: Log, steps: seq<Step>)
    decreases |steps|
  {
    steps == [] || (Enabled(log, steps[0]) && PossibleFrom(Apply(log, steps[0]), steps[1..]))
  }

  ghost predicate HonestFrom(log: Log, steps: seq<Step>)
    requires PossibleFrom(log, steps)
    decreases |steps|
  {
    steps == [] || (Honest(log, steps[0]) && HonestFrom(Apply(log, steps[0]), steps[1..]))
  }

  /** An append that expects a version it can see is a run of honest steps, wherever it stops. */
  lemma {:induction false} AppendIsHonest(log: Log, x: nat, stream: string, expected: int, events: seq<Option<int>>, i: nat)
    returns (steps: seq<Step>)
    requires x in log.open && !log.open[x].failed && i <= |events|
    requires 0 <= expected + i <= VisibleHead(log, x, stream)
    ensures PossibleFrom(log, steps) && HonestFrom(log, steps)
    ensures RunFrom(log, steps) == AppendFrom(log, x, stream, expected, events, i).0
    decreases |events| - i
  {
    if i == |events| || events[i].None? {
      steps := [];
    } else if Exists(log, x, stream, expected + i + 1) {
      steps := [InsertFails(x)];
    } else if Taken(log, stream, expected + i + 1) {
      steps := [];
    } else {
      var first := Insert(x, stream, expected + i + 1, events[i].value);
      var next := Apply(log, first);
      VersionsAppend(stream, log.open[x].pending, [Event(stream, expected + i + 1, Position(x, log.nextPos), events[i].value)]);
      var rest := AppendIsHonest(next, x, stream, expected, events, i + 1);
      steps := [first] + rest;
    }
  }

  /** No other open transaction is writing the stream. */
  ghost predicate Alone(log: Log, x: nat, stream: string) {
    forall y | y in log.open && y != x :: VersionsOf(stream, log.open[y].pending) == []
  }

  lemma FreeIffNext(log: Log, x: nat, stream: string, version: int)
    requires StreamOrdered(log, stream) && x in log.open && Alone(log, x, stream) && version >= 1
    ensures Exists(log, x, stream, version) <==> version <= VisibleHead(log, x, stream)
    ensures Taken(log, stream, version) <==> version <= VisibleHead(log, x, stream)
  {
    var n, own := Head(log, stream), VersionsOf(stream, log.open[x].pending);
    VersionListed(stream, log.rows, version);
    VersionListed(stream, log.open[x].pending, version);
    RunHolds(1, n, version);
    RunHolds(n + 1, |own|, version);
    forall y | y in log.open && PendingVersion(log.open[y], stream, version) ensures y == x {
      VersionListed(stream, log.open[y].pending, version);
    }
  }

  lemma OpenStreamStep(log: Log, x: nat, stream: string, version: int, payload: int)
    requires StreamOrdered(log, stream) && x in log.open && !log.open[x].failed && Alone(log, x, stream)
    requires version == VisibleHead(log, x, stream) + 1 && !Taken(log, stream, version)
    ensures var next := Apply(log, Insert(x, stream, version, payload));
            StreamOrdered(next, stream) && Alone(next, x, stream) && VisibleHead(next, x, stream) == version
  {
    StreamInsert(log, Insert(x, stream, version, payload), stream);
    VersionsAppend(stream, log.open[x].pending, [Event(stream, version, Position(x, log.nextPos), payload)]);
  }

  /** The optimistic check: an append of named events succeeds if and only if it expected the head it sees. */
  lemma {:induction false} AppendDecides(log: Log, x: nat, stream: string, expected: int, events: seq<Option<int>>, i: nat)
    requires x in log.open && !log.open[x].failed && i < |events| && (forall e | e in events :: e.Some?)
    requires StreamOrdered(log, stream) && Alone(log, x, stream) && 0 <= expected + i <= VisibleHead(log, x, stream)
    ensures var r := AppendFrom(log, x, stream, expected, events, i).1;
            r == if expected + i == VisibleHead(log, x, stream) then Appended else Concurrency(i)
    decreases |events| - i
  {
    assert events[i] in events;
    FreeIffNext(log, x, stream, expected + i + 1);
    if expected + i == VisibleHead(log, x, stream) {
      OpenStreamStep(log, x, stream, expected + i + 1, events[i].value);
      if i + 1 < |events| {
        AppendDecides(Apply(log, Insert(x, stream, expected + i + 1, events[i].value)), x, stream, expected, events, i + 1);
      }
    }
  }

  // ---- The result set -----------------------------------------------------------------------

  /** A result set: rows that scan, and rows that do not (None). */
  class RowsIterator {
    const rows: seq<Option<Event>>
    const broken: bool // the driver reports an error after the last row
    var next: nat
    var current: Option<Event>
    var failed: bool
    var done: bool

    ghost predicate Valid()
      reads this
    {
      && next <= |rows|
      && (forall i | 0 <= i < next :: rows[i].Some? || failed)
      && (!done ==> !failed)
    }

    constructor (rows: seq<Option<Event>>, broken: bool)
      ensures Valid() && this.rows == rows && this.broken == broken && next == 0 && !done
    {
      this.rows, this.broken := rows, broken;
      next, current, failed, done := 0, None, false, false;
    }

    method Next() returns (more: bool)
      requires Valid()
      modifies this
      ensures Valid()
      ensures more == (!old(done) && old(next) < |rows| && rows[old(next)].Some?)
      ensures more ==> current == rows[old(next)] && next == old(next) + 1 && !done
      ensures !more ==> done && current == old(current)
      ensures !more && !old(done) ==> failed == (if old(next) < |rows| then true else broken)
      ensures old(done) ==> next == old(next) && failed == old(failed)
    {
      if done || failed { return false; }
      if next == |rows| {
        failed, done := broken, true;
        return false;
      }
      var scanned := rows[next];
      next := next + 1;
      if scanned.None? {
        failed, done := true, true;
        return false;
      }
      current := scanned;
      return true;
    }
  }

  function Scanned(rows: seq<Option<Event>>): seq<Event> {
    if rows == [] || rows[0].None? then [] else [rows[0].value] + Scanned(rows[1..])
  }

  lemma {:induction false} ScannedNext(rows: seq<Option<Event>>, i: nat)
    requires i < |rows| && forall j | 0 <= j <= i :: rows[j].Some?
    ensures Scanned(rows[..i + 1]) == Scanned(rows[..i]) + [rows[i].value]
    decreases i
  {
    if i > 0 {
      ScannedNext(rows[1..], i - 1);
      assert rows[1..][..i] == rows[..i + 1][1..] && rows[1..][..i - 1] == rows[..i][1..];
    } else {
      assert rows[..1][1..] == [];
    }
  }

  /** Drains an iterator: without an error the batch is the whole result set, in order. */
  method Collected(it: RowsIterator) returns (batch: seq<Event>, ok: bool)
    requires it.Valid() && it.next == 0 && !it.done
    modifies it
    ensures ok <==> (forall i | 0 <= i < |it.rows| :: it.rows[i].Some?) && !it.broken
    ensures ok ==> batch == Scanned(it.rows)
  {
    batch := [];
    var more := it.Next();
    while more
      invariant it.Valid()
      invariant more ==> !it.done && 0 < it.next <= |it.rows| && it.current == it.rows[it.next - 1]
      invariant more ==> forall i | 0 <= i < it.next :: it.rows[i].Some?
      invariant more ==> batch == Scanned(it.rows[..it.next - 1])
      invariant !more ==> it.failed == ((exists i | 0 <= i < |it.rows| :: it.rows[i].None?) || it.broken)
      invariant !more && !it.failed ==> batch == Scanned(it.rows)
      decreases more, |it.rows| - it.next
    {
      ghost var i := it.next;
      ScannedNext(it.rows, i - 1);
      batch := batch + [it.current.value];
      more := it.Next();
      assert it.rows[..|it.rows|] == it.rows;
    }
    ok := !it.failed;
  }

  // ---- The projector ------------------------------------------------------------------------

  /** The handler: it may reject an event. */
  function TryFold<M>(handle: (M, Event) -> Option<M>, init: M, es: seq<Event>): Option<M> {
    if es == [] then Some(init)
    else
      var before := TryFold(handle, init, es[..|es| - 1]);
      if before.None? then None else handle(before.value, es[|es| - 1])
  }

  /** A handler that accepts every event of the batch is the fold of the invariant. */
  lemma {:induction false} AcceptedIsFold<M>(handle: (M, Event) -> Option<M>, f: (M, Event) -> M, init: M, es: seq<Event>)
    requires TryFold(handle, init, es).Some?
    requires forall m, e :: handle(m, e).Some? ==> handle(m, e).value == f(m, e)
    ensures TryFold(handle, init, es).value == Fold(f, init, es)
    decreases |es|
  {
    if es != [] { AcceptedIsFold(handle, f, init, es[..|es| - 1]); }
  }

  /** A batch is rejected exactly when the handler rejects some event after accepting all before it. */
  lemma {:induction false} RejectedAt<M>(handle: (M, Event) -> Option<M>, init: M, es: seq<Event>)
    ensures TryFold(handle, init, es).None? <==>
            exists i | 0 <= i < |es| :: TryFold(handle, init, es[..i]).Some? && handle(TryFold(handle, init, es[..i]).value, es[i]).None?
    decreases |es|
  {
    if es != [] {
      var n := |es| - 1;
      RejectedAt(handle, init, es[..n]);
      forall i | 0 <= i < n ensures es[..n][..i] == es[..i] && es[..n][i] == es[i] { }
    }
  }

  /** What a projection was last told its position is; the start if it never was. */
  function Latest(history: seq<(string, Position)>, name: string): Position {
    if history == [] then START
    else if history[|history| - 1].0 == name then history[|history| - 1].1
    else Latest(history[..|history| - 1], name)
  }

  /** The positions a batch reports, one for each event. */
  function Reports(name: string, batch: seq<Event>): (rs: seq<(string, Position)>)
    ensures |rs| == |batch|
  {
    seq(|batch|, i requires 0 <= i < |batch| => (name, batch[i].at))
  }

  lemma {:induction false} LatestReport(history: seq<(string, Position)>, name: string, batch: seq<Event>, other: string)
    ensures Latest(history + Reports(name, batch), other) ==
            if other == name then LastOf(batch, Latest(history, name)) else Latest(history, other)
    decreases |batch|
  {
    if batch == [] {
      assert history + Reports(name, batch) == history;
    } else {
      var before, after := history + Reports(name, batch[..|batch| - 1]), history + Reports(name, batch);
      assert after[..|after| - 1] == before && after[|after| - 1] == (name, batch[|batch| - 1].at);
      LatestReport(history, name, batch[..|batch| - 1], other);
    }
  }

  /** The stored checkpoints and one read model, in one database, with every position committed to it so far. */
  class Projector<M> {
    var checkpoints: map<string, Position>
    var model: M
    ghost var history: seq<(string, Position)>

    constructor (init: M)
      ensures Valid() && checkpoints == map[] && model == init && history == []
    {
      checkpoints, model, history := map[], init, [];
    }

    /** The table holds the latest position of every projection that has one. */
    ghost predicate Valid()
      reads this
    {
      forall name :: (if name in checkpoints then checkpoints[name] else START) == Latest(history, name)
    }

    /** Loads what was last saved or reset; a projection never seen starts at the beginning. */
    method Load(name: string) returns (p: Position)
      requires Valid()
      ensures p == Latest(history, name)
    {
      p := if name in checkpoints then checkpoints[name] else START;
    }

    method Save(name: string, p: Position)
      requires Valid()
      modifies this`checkpoints, this`history
      ensures Valid() && history == old(history) + [(name, p)]
    {
      checkpoints := checkpoints[name := p];
      history := history + [(name, p)];
    }

    /** Clears the model and the checkpoint in one transaction. */
    method Reset(name: string, init: M)
      requires Valid()
      modifies this
      ensures Valid() && history == old(history) + [(name, START)] && model == init
    {
      checkpoints := checkpoints[name := START];
      history := history + [(name, START)];
      model := init;
    }

    /** Handles one batch in one transaction: the model and the checkpoint move together, or not at all. */
    method Project(name: string, handle: (M, Event) -> Option<M>, batch: seq<Event>) returns (ok: bool)
      requires Valid()
      modifies this
      ensures Valid() && (ok <==> TryFold(handle, old(model), batch).Some?)
      ensures ok ==> model == TryFold(handle, old(model), batch).value && history == old(history) + Reports(name, batch)
      ensures !ok ==> model == old(model) && history == old(history)
    {
      var savedModel, savedCheckpoints := model, checkpoints; // BEGIN
      ghost var savedHistory := history;
      assert history == savedHistory + Reports(name, batch[..0]);
      for i := 0 to |batch|
        invariant Valid() && TryFold(handle, old(model), batch[..i]) == Some(model)
        invariant history == savedHistory + Reports(name, batch[..i])
        invariant savedModel == old(model) && savedCheckpoints == old(checkpoints) && savedHistory == old(history)
      {
        var next := handle(model, batch[i]);
        assert batch[..i + 1][..i] == batch[..i];
        if next.None? {
          model, checkpoints, history := savedModel, savedCheckpoints, savedHistory; // ROLLBACK
          RejectedStays(handle, old(model), batch, i + 1);
          return false;
        }
        model := next.value;
        Save(name, batch[i].at);
        assert Reports(name, batch[..i + 1]) == Reports(name, batch[..i]) + [(name, batch[i].at)];
      }
      assert batch[..|batch|] == batch;
      ok := true; // COMMIT
    }
  }

  lemma {:induction false} RejectedStays<M>(handle: (M, Event) -> Option<M>, init: M, es: seq<Event>, i: nat)
    requires i <= |es| && TryFold(handle, init, es[..i]).None?
    ensures TryFold(handle, init, es).None?
    decreases |es| - i
  {
    if i == |es| {
      assert es[..i] == es;
    } else {
      assert es[..i + 1][..i] == es[..i];
      RejectedStays(handle, init, es, i + 1);
    }
  }
}
