/** The event log. */
module EventLog {
  // The append-only event log on Postgres: transactions that take ids and positions in one order and commit in another,
  // and the watermark read that never lets a late commit land behind a reader.

  import opened OrderedSeqs

  datatype Position = Position(xid: nat, pos: nat)

  const START := Position(0, 0)

  predicate Before(p: Position, q: Position) {
    if p.xid != q.xid then p.xid < q.xid else p.pos < q.pos
  }

  predicate AtOrBefore(p: Position, q: Position) { p == q || Before(p, q) }

  datatype Event = Event(stream: string, version: int, at: Position, payload: int)

  predicate EventBefore(a: Event, b: Event) { Before(a.at, b.at) }

  function InReadOrder(): (Event, Event) -> bool {
    (a: Event, b: Event) => EventBefore(a, b)
  }

  /** An open transaction holds its uncommitted rows; a failed statement leaves it able only to roll back. */
  datatype Tx = Tx(pending: seq<Event>, failed: bool)

  /** `rows` are the committed events in commit order. */
  datatype Log = Log(open: map<nat, Tx>, nextXid: nat, nextPos: nat, rows: seq<Event>)

  const EMPTY := Log(map[], 1, 1, [])

  /** The oldest transaction id still running, as pg_snapshot_xmin reports it, is at least w. */
  predicate Watermark(log: Log, w: nat) {
    w <= log.nextXid && forall x | x in log.open :: w <= x
  }

  // ---- Steps --------------------------------------------------------------------------------

  predicate Taken(log: Log, stream: string, version: int) {
    || (exists e | e in log.rows :: e.stream == stream && e.version == version)
    || (exists x | x in log.open :: PendingVersion(log.open[x], stream, version))
  }

  predicate PendingVersion(t: Tx, stream: string, version: int) {
    exists e | e in t.pending :: e.stream == stream && e.version == version
  }

  datatype Step =
    | Begin                                                              // a transaction takes its id
    | Insert(xid: nat, stream: string, version: int, payload: int)       // one row of an append
    | InsertFails(xid: nat)                                              // a unique violation, or any other error
    | Commit(xid: nat)
    | Abort(xid: nat)

  /** An insert of a key another open transaction holds waits for it, so it is enabled only when the key is free. */
  predicate Enabled(log: Log, step: Step) {
    match step
    case Begin => true
    case Insert(x, stream, version, _) => x in log.open && !log.open[x].failed && !Taken(log, stream, version)
    case InsertFails(x) => x in log.open && !log.open[x].failed
    case Commit(x) => x in log.open && !log.open[x].failed
    case Abort(x) => x in log.open
  }

  function Apply(log: Log, step: Step): Log
    requires Enabled(log, step)
  {
    match step
    case Begin => log.(open := log.open[log.nextXid := Tx([], false)], nextXid := log.nextXid + 1)
    case Insert(x, stream, version, payload) =>
      var e := Event(stream, version, Position(x, log.nextPos), payload);
      log.(open := log.open[x := log.open[x].(pending := log.open[x].pending + [e])], nextPos := log.nextPos + 1)
    case InsertFails(x) =>
      log.(open := log.open[x := log.open[x].(failed := true)], nextPos := log.nextPos + 1)
    case Commit(x) => log.(open := log.open - {x}, rows := log.rows + log.open[x].pending)
    case Abort(x) => log.(open := log.open - {x})
  }

  // ---- What every run keeps -----------------------------------------------------------------

  ghost predicate Stamped(log: Log, x: nat, e: Event) {
    e.at.xid == x && 1 <= x < log.nextXid && e.at.pos < log.nextPos
  }

  ghost predicate Distinguished(es: seq<Event>) {
    forall i, j | 0 <= i < j < |es| :: es[i].at != es[j].at
  }

  ghost predicate Valid(log: Log) {
    && log.nextXid >= 1
    && (forall x | x in log.open :: 1 <= x < log.nextXid && Distinguished(log.open[x].pending))
    && (forall x, e | x in log.open && e in log.open[x].pending :: Stamped(log, x, e))
    && (forall e | e in log.rows :: e.at.xid !in log.open && Stamped(log, e.at.xid, e))
    && Distinguished(log.rows)
  }

  lemma ValidInsert(log: Log, step: Step)
    requires Valid(log) && Enabled(log, step) && step.Insert?
    ensures Valid(Apply(log, step))
  {
    var e := Event(step.stream, step.version, Position(step.xid, log.nextPos), step.payload);
    var held := log.open[step.xid].pending;
    forall i | 0 <= i < |held| ensures held[i].at != e.at {
      assert Stamped(log, step.xid, held[i]);
    }
  }

  lemma ValidCommit(log: Log, step: Step)
    requires Valid(log) && Enabled(log, step) && step.Commit?
    ensures Valid(Apply(log, step))
  {
    var p := log.open[step.xid].pending;
    forall i, j | 0 <= i < |log.rows| && 0 <= j < |p| ensures log.rows[i].at != p[j].at {
      assert log.rows[i] in log.rows && p[j] in p;
      assert Stamped(log, step.xid, p[j]);
    }
  }

  lemma ValidStep(log: Log, step: Step)
    requires Valid(log) && Enabled(log, step)
    ensures Valid(Apply(log, step))
  {
    match step
    case Insert(_, _, _, _) => ValidInsert(log, step);
    case Commit(_) => ValidCommit(log, step);
    case _ =>
  }

  // ---- The settled part of the log ----------------------------------------------------------

  /** No transaction that is open now, or begins later, can still place an event at or before p. */
  ghost predicate Settled(log: Log, p: Position) {
    p.xid < log.nextXid && forall x | x in log.open :: p.xid < x
  }

  function Behind(p: Position): Event -> bool { (e: Event) => AtOrBefore(e.at, p) }

  /** The committed events at or before p, in the read order. */
  function UpTo(log: Log, p: Position): seq<Event> {
    Sort(InReadOrder(), Filter(Behind(p), log.rows))
  }

  lemma {:induction false} FilterAppend(keep: Event -> bool, a: seq<Event>, b: seq<Event>)
    ensures Filter(keep, a + b) == Filter(keep, a) + Filter(keep, b)
  {
    if a == [] {
      assert a + b == b;
    } else {
      FilterAppend(keep, a[1..], b);
      assert (a + b)[1..] == a[1..] + b && (a + b)[0] == a[0];
      var left, right := Filter(keep, a[1..]), Filter(keep, b);
      assert [a[0]] + (left + right) == ([a[0]] + left) + right;
    }
  }

  lemma {:induction false} FilterNone(keep: Event -> bool, a: seq<Event>)
    requires forall e | e in a :: !keep(e)
    ensures Filter(keep, a) == []
  {
    if a != [] { FilterNone(keep, a[1..]); }
  }

  /** Nothing that happens later changes the settled part of the log. */
  lemma SettledStays(log: Log, step: Step, p: Position)
    requires Valid(log) && Enabled(log, step) && Settled(log, p)
    ensures Settled(Apply(log, step), p) && UpTo(Apply(log, step), p) == UpTo(log, p)
  {
    if step.Commit? {
      var late := log.open[step.xid].pending;
      forall e | e in late ensures !Behind(p)(e) {
        assert Stamped(log, step.xid, e);
      }
      FilterNone(Behind(p), late);
      FilterAppend(Behind(p), log.rows, late);
      assert Filter(Behind(p), log.rows) + [] == Filter(Behind(p), log.rows);
    }
  }

  lemma ReadOrderIsTotal(es: seq<Event>)
    requires Distinguished(es)
    ensures Distinct(es) && TotalOn(InReadOrder(), es)
  {
    forall a, b | a in es && b in es && a != b ensures InReadOrder()(a, b) || InReadOrder()(b, a) {
      var i :| 0 <= i < |es| && es[i] == a;
      var j :| 0 <= j < |es| && es[j] == b;
      assert i < j || j < i;
    }
  }

  lemma {:induction false} FilterDistinguished(keep: Event -> bool, es: seq<Event>)
    requires Distinguished(es)
    ensures Distinguished(Filter(keep, es))
  {
    if es != [] {
      FilterDistinguished(keep, es[1..]);
      FilterElements(keep, es[1..]);
      assert forall e | e in es[1..] :: e.at != es[0].at;
    }
  }

  lemma OrderedPart(log: Log, keep: Event -> bool)
    requires Valid(log)
    ensures var part := Filter(keep, log.rows);
            && Distinct(part) && TotalOn(InReadOrder(), part)
            && Ascending(InReadOrder(), Sort(InReadOrder(), part))
            && (forall e :: e in Sort(InReadOrder(), part) <==> e in log.rows && keep(e))
  {
    var part := Filter(keep, log.rows);
    FilterDistinguished(keep, log.rows);
    FilterElements(keep, log.rows);
    ReadOrderIsTotal(part);
    SortAscends(InReadOrder(), part);
    SortElements(InReadOrder(), part);
  }

  // ---- ReadAll ------------------------------------------------------------------------------

  function Ahead(from: Position, w: nat): Event -> bool {
    (e: Event) => e.at.xid < w && Before(from, e.at)
  }

  /** The rows ReadAll returns: below the watermark, after `from`, in read order, at most `limit` of them. */
  function ReadAll(log: Log, w: nat, from: Position, limit: int): seq<Event> {
    var n: nat := if limit < 1 then 1 else limit;
    var found := Sort(InReadOrder(), Filter(Ahead(from, w), log.rows));
    if n < |found| then found[..n] else found
  }

  function LastOf(batch: seq<Event>, from: Position): Position {
    if batch == [] then from else batch[|batch| - 1].at
  }

  /** What ReadAll returns is strictly ascending, after `from`, below the watermark, and misses nothing up to its last event. */
  lemma BatchIsNext(log: Log, w: nat, from: Position, limit: int)
    requires Valid(log)
    ensures var batch := ReadAll(log, w, from, limit);
            && Ascending(InReadOrder(), batch)
            && (forall e | e in batch :: e in log.rows && e.at.xid < w && Before(from, e.at))
            && (forall e | e in log.rows && e.at.xid < w && Before(from, e.at) :: e in batch || (batch != [] && Before(LastOf(batch, from), e.at)))
  {
    OrderedPart(log, Ahead(from, w));
    var found := Sort(InReadOrder(), Filter(Ahead(from, w), log.rows));
    var n: nat := if limit < 1 then 1 else limit;
    var batch := ReadAll(log, w, from, limit);
    forall e | e in found ensures e in batch || (batch != [] && Before(LastOf(batch, from), e.at)) {
      var k :| 0 <= k < |found| && found[k] == e;
      if k < n {
        assert batch[k] == e;
      } else {
        assert InReadOrder()(found[n - 1], found[k]);
      }
    }
  }

  /** ReadAll returns as many as it was asked for, one at least, and fewer only when it returns all there is. */
  lemma BatchIsFull(log: Log, w: nat, from: Position, limit: int)
    requires Valid(log)
    ensures var batch, most := ReadAll(log, w, from, limit), if limit < 1 then 1 else limit;
            && |batch| <= most
            && (|batch| < most ==> forall e | e in log.rows && e.at.xid < w && Before(from, e.at) :: e in batch)
  {
    OrderedPart(log, Ahead(from, w));
  }

  lemma BeforeTransitive(p: Position, q: Position, r: Position)
    requires AtOrBefore(p, q) && Before(q, r)
    ensures Before(p, r)
  {
  }

  /** The first k events of a batch continue the committed prefix exactly, even when k cuts inside a transaction. */
  lemma PrefixContinues(log: Log, w: nat, from: Position, limit: int, k: nat)
    requires Valid(log) && Watermark(log, w) && Settled(log, from) && k <= |ReadAll(log, w, from, limit)|
    ensures var part := ReadAll(log, w, from, limit)[..k];
            && Settled(log, LastOf(part, from))
            && UpTo(log, LastOf(part, from)) == UpTo(log, from) + part
  {
    var batch := ReadAll(log, w, from, limit);
    var part := batch[..k];
    var to := LastOf(part, from);
    var head := UpTo(log, from);
    BatchIsNext(log, w, from, limit);
    if k > 0 {
      assert part[k - 1] in batch;
      OrderedPart(log, Behind(from));
      OrderedPart(log, Behind(to));
      assert forall i, j | 0 <= i < j < k :: InReadOrder()(batch[i], batch[j]);
      Joined(head, from, part);
      PrefixElements(log, w, from, limit, k);
      AscendingUnique(InReadOrder(), UpTo(log, to), head + part);
    } else {
      assert head + part == head;
    }
  }

  lemma Joined(head: seq<Event>, from: Position, part: seq<Event>)
    requires Ascending(InReadOrder(), head) && Ascending(InReadOrder(), part)
    requires (forall e | e in head :: AtOrBefore(e.at, from)) && (forall e | e in part :: Before(from, e.at))
    ensures Ascending(InReadOrder(), head + part)
    ensures forall a, b | a in head + part && b in head + part :: !(InReadOrder()(a, b) && InReadOrder()(b, a))
  {
    var all := head + part;
    forall i, j | 0 <= i < j < |all| ensures InReadOrder()(all[i], all[j]) {
      if j < |head| {
        assert InReadOrder()(head[i], head[j]);
      } else if i >= |head| {
        assert InReadOrder()(part[i - |head|], part[j - |head|]);
      } else {
        assert head[i] in head && part[j - |head|] in part;
        BeforeTransitive(head[i].at, from, part[j - |head|].at);
      }
    }
  }

  lemma PrefixElements(log: Log, w: nat, from: Position, limit: int, k: nat)
    requires Valid(log) && 0 < k <= |ReadAll(log, w, from, limit)|
    ensures var part := ReadAll(log, w, from, limit)[..k];
            SameElements(UpTo(log, LastOf(part, from)), UpTo(log, from) + part)
  {
    var batch := ReadAll(log, w, from, limit);
    var part := batch[..k];
    var to := part[k - 1].at;
    BatchIsNext(log, w, from, limit);
    OrderedPart(log, Behind(from));
    OrderedPart(log, Behind(to));
    assert part[k - 1] in batch;
    forall e ensures e in UpTo(log, to) <==> e in UpTo(log, from) || e in part {
      if e in part {
        var i :| 0 <= i < k && batch[i] == e;
        assert e in batch;
        AscendingAt(InReadOrder(), batch, i, k - 1);
      }
      if e in UpTo(log, to) && !AtOrBefore(e.at, from) {
        BehindInPart(log, w, from, limit, k, e);
      }
    }
  }

  lemma BehindInPart(log: Log, w: nat, from: Position, limit: int, k: nat, e: Event)
    requires Valid(log) && 0 < k <= |ReadAll(log, w, from, limit)|
    requires e in log.rows && Before(from, e.at) && AtOrBefore(e.at, ReadAll(log, w, from, limit)[k - 1].at)
    ensures e in ReadAll(log, w, from, limit)[..k]
  {
    var batch := ReadAll(log, w, from, limit);
    BatchIsNext(log, w, from, limit);
    assert batch[k - 1] in batch;
    AscendingAt(InReadOrder(), batch, k - 1, |batch| - 1);
    assert e in batch;
    var i :| 0 <= i < |batch| && batch[i] == e;
    if i >= k {
      AscendingAt(InReadOrder(), batch, k - 1, i);
    } else {
      assert batch[..k][i] == e;
    }
  }

  // ---- Streams ------------------------------------------------------------------------------

  function VersionsOf(stream: string, es: seq<Event>): seq<int> {
    if es == [] then []
    else (if es[0].stream == stream then [es[0].version] else []) + VersionsOf(stream, es[1..])
  }

  /** lo, lo + 1, ..., lo + n - 1. */
  function Run(lo: nat, n: nat): seq<int> { seq(n, i requires 0 <= i < n => lo + i) }

  function Head(log: Log, stream: string): nat { |VersionsOf(stream, log.rows)| }

  /** The highest version a transaction sees on a stream: the committed ones and its own. */
  function VisibleHead(log: Log, x: nat, stream: string): nat
    requires x in log.open
  {
    Head(log, stream) + |VersionsOf(stream, log.open[x].pending)|
  }

  /** The caller's expected version is one it could have read. */
  predicate Honest(log: Log, step: Step) {
    step.Insert? && step.xid in log.open ==> 1 <= step.version <= VisibleHead(log, step.xid, step.stream) + 1
  }

  /** On one stream: the committed versions are 1..n, and one transaction at most holds n + 1, n + 2, ... */
  ghost predicate StreamOrdered(log: Log, stream: string) {
    && VersionsOf(stream, log.rows) == Run(1, Head(log, stream))
    && (forall x | x in log.open ::
          VersionsOf(stream, log.open[x].pending) == Run(Head(log, stream) + 1, |VersionsOf(stream, log.open[x].pending)|))
    && (forall x, y | x in log.open && y in log.open && x != y ::
          VersionsOf(stream, log.open[x].pending) == [] || VersionsOf(stream, log.open[y].pending) == [])
  }

  lemma {:induction false} VersionsAppend(stream: string, a: seq<Event>, b: seq<Event>)
    ensures VersionsOf(stream, a + b) == VersionsOf(stream, a) + VersionsOf(stream, b)
  {
    if a == [] {
      assert a + b == b;
    } else {
      VersionsAppend(stream, a[1..], b);
      assert (a + b)[1..] == a[1..] + b && (a + b)[0] == a[0];
      var first := if a[0].stream == stream then [a[0].version] else [];
      var left, right := VersionsOf(stream, a[1..]), VersionsOf(stream, b);
      assert VersionsOf(stream, a + b) == first + (left + right);
      assert first + (left + right) == (first + left) + right;
    }
  }

  lemma {:induction false} VersionListed(stream: string, es: seq<Event>, v: int)
    ensures v in VersionsOf(stream, es) <==> exists e | e in es :: e.stream == stream && e.version == v
  {
    if es != [] {
      VersionListed(stream, es[1..], v);
      assert forall e :: e in es <==> e == es[0] || e in es[1..];
    }
  }

  lemma RunHolds(lo: nat, n: nat, v: int)
    ensures v in Run(lo, n) <==> lo <= v < lo + n
  {
    if lo <= v < lo + n {
      assert Run(lo, n)[v - lo] == v;
    }
  }

  /** A free, honest version is the next one, and nobody else holds the stream. */
  lemma FreeIsNext(log: Log, x: nat, stream: string, version: int)
    requires StreamOrdered(log, stream) && x in log.open && version >= 1 && !Taken(log, stream, version)
    requires version <= VisibleHead(log, x, stream) + 1
    ensures version == VisibleHead(log, x, stream) + 1
    ensures forall y | y in log.open && y != x :: VersionsOf(stream, log.open[y].pending) == []
  {
    var n, own := Head(log, stream), VersionsOf(stream, log.open[x].pending);
    VersionListed(stream, log.rows, version);
    assert !PendingVersion(log.open[x], stream, version);
    VersionListed(stream, log.open[x].pending, version);
    RunHolds(1, n, version);
    RunHolds(n + 1, |own|, version);
    forall y | y in log.open && y != x ensures VersionsOf(stream, log.open[y].pending) == [] {
      var other := VersionsOf(stream, log.open[y].pending);
      if |own| == 0 {
        assert !PendingVersion(log.open[y], stream, version);
        VersionListed(stream, log.open[y].pending, version);
        RunHolds(n + 1, |other|, version);
      }
    }
  }

  lemma StreamInsert(log: Log, step: Step, stream: string)
    requires step.Insert? && Enabled(log, step) && Honest(log, step) && StreamOrdered(log, stream)
    ensures StreamOrdered(Apply(log, step), stream)
  {
    var x := step.xid;
    var e := Event(step.stream, step.version, Position(x, log.nextPos), step.payload);
    var own := VersionsOf(stream, log.open[x].pending);
    VersionsAppend(stream, log.open[x].pending, [e]);
    assert VersionsOf(stream, [e]) == if step.stream == stream then [step.version] else [];
    if step.stream == stream {
      FreeIsNext(log, x, stream, step.version);
      assert own + [step.version] == Run(Head(log, stream) + 1, |own| + 1);
    } else {
      assert own + [] == own;
    }
  }

  lemma StreamCommit(log: Log, step: Step, stream: string)
    requires step.Commit? && Enabled(log, step) && StreamOrdered(log, stream)
    ensures StreamOrdered(Apply(log, step), stream)
  {
    var x := step.xid;
    var own := VersionsOf(stream, log.open[x].pending);
    VersionsAppend(stream, log.rows, log.open[x].pending);
    assert Run(1, Head(log, stream)) + own == Run(1, Head(log, stream) + |own|);
    if own == [] {
      assert VersionsOf(stream, log.rows) + own == VersionsOf(stream, log.rows);
    }
  }

  lemma StreamStep(log: Log, step: Step, stream: string)
    requires Enabled(log, step) && Honest(log, step) && StreamOrdered(log, stream)
    requires log.nextXid !in log.open
    ensures StreamOrdered(Apply(log, step), stream)
  {
    match step
    case Insert(_, _, _, _) => StreamInsert(log, step, stream);
    case Commit(_) => StreamCommit(log, step, stream);
    case _ =>
  }

  // ---- Runs ---------------------------------------------------------------------------------

  function After(steps: seq<Step>): Log
    requires Possible(steps)
    decreases |steps|, 1
  {
    if steps == [] then EMPTY else Apply(After(steps[..|steps| - 1]), steps[|steps| - 1])
  }

  predicate Possible(steps: seq<Step>)
    decreases |steps|, 0
  {
    steps == [] || (Possible(steps[..|steps| - 1]) && Enabled(After(steps[..|steps| - 1]), steps[|steps| - 1]))
  }

  lemma {:induction false} RunsAreValid(steps: seq<Step>)
    requires Possible(steps)
    ensures Valid(After(steps))
    decreases |steps|
  {
    if steps != [] {
      RunsAreValid(steps[..|steps| - 1]);
      ValidStep(After(steps[..|steps| - 1]), steps[|steps| - 1]);
    }
  }

  ghost predicate AllHonest(steps: seq<Step>)
    requires Possible(steps)
    decreases |steps|
  {
    steps == [] || (AllHonest(steps[..|steps| - 1]) && Honest(After(steps[..|steps| - 1]), steps[|steps| - 1]))
  }

  /** Optimistic streams: in every run, over all interleavings and aborts, each stream commits exactly 1, 2, ..., n in that order. */
  lemma {:induction false} StreamsAreGapless(steps: seq<Step>, stream: string)
    requires Possible(steps) && AllHonest(steps)
    ensures StreamOrdered(After(steps), stream)
    ensures VersionsOf(stream, After(steps).rows) == Run(1, Head(After(steps), stream))
    decreases |steps|
  {
    if steps != [] {
      var before := steps[..|steps| - 1];
      StreamsAreGapless(before, stream);
      RunsAreValid(before);
      StreamStep(After(before), steps[|steps| - 1], stream);
    }
  }

  ghost predicate KeysUnique(log: Log) {
    && (forall i, j | 0 <= i < j < |log.rows| :: !SameKey(log.rows[i], log.rows[j]))
    && (forall x | x in log.open :: forall i, j | 0 <= i < j < |log.open[x].pending| :: !SameKey(log.open[x].pending[i], log.open[x].pending[j]))
    && (forall x, e, r | x in log.open && e in log.open[x].pending && r in log.rows :: !SameKey(e, r))
    && (forall x, y, e, f | x in log.open && y in log.open && x != y && e in log.open[x].pending && f in log.open[y].pending :: !SameKey(e, f))
  }

  predicate SameKey(a: Event, b: Event) { a.stream == b.stream && a.version == b.version }

  lemma KeysUniqueStep(log: Log, step: Step)
    requires KeysUnique(log) && Enabled(log, step) && log.nextXid !in log.open
    ensures KeysUnique(Apply(log, step))
  {
    if step.Insert? {
      forall x, e | x in log.open && e in log.open[x].pending && SameKey(e, Event(step.stream, step.version, START, 0)) ensures false {
        assert PendingVersion(log.open[x], step.stream, step.version);
      }
    } else if step.Commit? {
      CommitKeepsKeys(log, step.xid);
    }
  }

  lemma CommitKeepsKeys(log: Log, x: nat)
    requires KeysUnique(log) && x in log.open && !log.open[x].failed
    ensures KeysUnique(Apply(log, Commit(x)))
  {
    var p := log.open[x].pending;
    forall i, j | 0 <= i < |log.rows| && 0 <= j < |p| ensures !SameKey(log.rows[i], p[j]) {
      assert log.rows[i] in log.rows && p[j] in p;
      assert !SameKey(p[j], log.rows[i]);
    }
  }

  /** Two appends that expected the same version never both commit, honest callers or not. */
  lemma {:induction false} OneWinnerPerVersion(steps: seq<Step>)
    requires Possible(steps)
    ensures KeysUnique(After(steps))
    ensures forall a, b | a in After(steps).rows && b in After(steps).rows && SameKey(a, b) :: a == b
    decreases |steps|
  {
    if steps != [] {
      OneWinnerPerVersion(steps[..|steps| - 1]);
      RunsAreValid(steps[..|steps| - 1]);
      KeysUniqueStep(After(steps[..|steps| - 1]), steps[|steps| - 1]);
    }
    var rows := After(steps).rows;
    forall a, b | a in rows && b in rows && SameKey(a, b) ensures a == b {
      var i :| 0 <= i < |rows| && rows[i] == a;
      var j :| 0 <= j < |rows| && rows[j] == b;
      assert i == j || i < j || j < i;
    }
  }
}
