/** A flush of what was not emitted yet. */
module Flush {
  // A flush: detection, then the inserts, the updates and the deletes of everything not emitted yet.

  import opened Options
  import opened Tracking

  datatype DbRow = DbRow(fields: Fields, version: int, deleted: bool)

  type Rows = map<Key, DbRow>

  /** What statements act on: the rows this transaction sees, the key sequence, the entities in memory, and the table event sinks write to. */
  datatype World = World(rows: Rows, nextKey: int, mem: Memory, outbox: seq<int>)

  function RowKey(mem: Memory, p: Ptr): Key { Key(p.meta.table, At(mem, p).key) }

  // ---- Statements ---------------------------------------------------------------------------

  /** An insert: the application's key, or the next one of the sequence, which is written back to the entity. */
  function Insert(w: World, p: Ptr): Option<World> {
    var e := At(w.mem, p);
    var version := if p.meta.versioned then 1 else e.version;
    if p.meta.appAssigned then
      if e.key == 0 || RowKey(w.mem, p) in w.rows then None
      else Some(w.(rows := w.rows[RowKey(w.mem, p) := DbRow(e.fields, version, false)], mem := w.mem[p := e.(version := version)]))
    else
      var k := Key(p.meta.table, w.nextKey);
      if k in w.rows then None
      else Some(World(w.rows[k := DbRow(e.fields, version, false)], w.nextKey + 1, w.mem[p := e.(key := w.nextKey, version := version)], w.outbox))
  }

  /** The columns an update writes: the diff, or everything for an entity attached as modified. */
  function Changes(mem: Memory, e: Entry): Fields {
    if e.forceUpdate then At(mem, e.entity).fields
    else if e.entity.meta.diffable && e.snapshot.Some? then Diff(At(mem, e.entity).fields, e.snapshot.value)
    else map[]
  }

  function Update(w: World, e: Entry): Option<World> {
    var p, k, changes := e.entity, RowKey(w.mem, e.entity), Changes(w.mem, e);
    if changes == map[] then Some(w)
    else if k !in w.rows then None
    else
      var row := w.rows[k];
      if !p.meta.versioned then Some(w.(rows := w.rows[k := row.(fields := row.fields + changes)]))
      else if row.version != At(w.mem, p).version then None
      else Some(w.(rows := w.rows[k := row.(fields := row.fields + changes, version := row.version + 1)],
                   mem := w.mem[p := At(w.mem, p).(version := row.version + 1)]))
  }

  function Delete(w: World, e: Entry): Option<World> {
    var p, k := e.entity, RowKey(w.mem, e.entity);
    var soft := p.meta.softDelete && !e.hardDelete;
    if p.meta.versioned && (k !in w.rows || w.rows[k].version != At(w.mem, p).version) then None
    else if k !in w.rows then Some(w)
    else if !soft then Some(w.(rows := w.rows - {k}))
    else Some(w.(rows := w.rows[k := w.rows[k].(deleted := true, version := w.rows[k].version + if p.meta.versioned then 1 else 0)]))
  }

  /** The statement for a pending entry. Any statement may also fail for reasons of its own. */
  function Statement(w: World, e: Entry, refuse: set<Ptr>): Option<World> {
    if e.entity in refuse then None
    else match e.state
      case Added => Insert(w, e.entity)
      case Modified => Update(w, e)
      case Deleted => Delete(w, e)
      case Unchanged => Some(w)
  }

  /** Exactly when a statement goes through. */
  lemma StatementSucceeds(w: World, e: Entry, refuse: set<Ptr>)
    ensures var p, k := e.entity, RowKey(w.mem, e.entity);
            Statement(w, e, refuse).Some? <==>
              && p !in refuse
              && (e.state.Added? ==> if p.meta.appAssigned then At(w.mem, p).key != 0 && k !in w.rows else Key(p.meta.table, w.nextKey) !in w.rows)
              && (e.state.Modified? && Changes(w.mem, e) != map[] ==>
                    k in w.rows && (p.meta.versioned ==> w.rows[k].version == At(w.mem, p).version))
              && (e.state.Deleted? && p.meta.versioned ==> k in w.rows && w.rows[k].version == At(w.mem, p).version)
  {
  }

  datatype Ran = Ran(world: World, ok: bool)

  /** The statements of a list in order, up to the first that fails. */
  function RunList(w: World, work: seq<Entry>, n: nat, refuse: set<Ptr>): Ran
    requires n <= |work|
  {
    if n == 0 then Ran(w, true)
    else
      var r := RunList(w, work, n - 1, refuse);
      if !r.ok then r
      else match Statement(r.world, work[n - 1], refuse)
        case None => r.(ok := false)
        case Some(next) => Ran(next, true)
  }

  /** The statements before the first that fails took effect, and nothing after it. */
  lemma {:induction false} RunStops(w: World, work: seq<Entry>, n: nat, refuse: set<Ptr>) returns (i: nat)
    requires n <= |work|
    ensures i <= n && (RunList(w, work, n, refuse).ok <==> i == n)
    ensures RunList(w, work, i, refuse).ok && RunList(w, work, n, refuse).world == RunList(w, work, i, refuse).world
    ensures i < n ==> Statement(RunList(w, work, i, refuse).world, work[i], refuse).None?
    ensures forall j | 0 <= j < i ::
              && Statement(RunList(w, work, j, refuse).world, work[j], refuse).Some?
              && RunList(w, work, j + 1, refuse).world == Statement(RunList(w, work, j, refuse).world, work[j], refuse).value
  {
    hide Statement;
    if n == 0 {
      i := 0;
    } else {
      i := RunStops(w, work, n - 1, refuse);
      if i == n - 1 && Statement(RunList(w, work, i, refuse).world, work[i], refuse).Some? { i := n; }
    }
  }

  // ---- A flush ------------------------------------------------------------------------------

  function Marked(e: Entry): Entry { if e.state.Unchanged? then e else e.(flushed := true) }

  function AllMarked(entries: seq<Entry>): seq<Entry> {
    seq(|entries|, i requires 0 <= i < |entries| => Marked(entries[i]))
  }

  function EventsOf(mem: Memory, es: seq<Entry>, n: nat): seq<int>
    requires n <= |es|
  {
    if n == 0 then [] else EventsOf(mem, es, n - 1) + At(mem, es[n - 1].entity).events
  }

  function PendingIn(entries: seq<Entry>, state: EntityState): seq<Entry> { Pending(entries, state, |entries|) }

  /** Everything a flush emits, in the order it emits it. */
  function Work(entries: seq<Entry>): seq<Entry> {
    PendingIn(entries, Added) + PendingIn(entries, Modified) + PendingIn(entries, Deleted)
  }

  datatype Flushed = Flushed(tracked: Contents, world: World, events: seq<int>, ok: bool)

  function FlushAll(t: Contents, w: World, refuse: set<Ptr>): Flushed {
    var found := AfterDetect(t, w.mem);
    var work := Work(found.entries);
    var ran := RunList(w, work, |work|, refuse);
    if ran.ok then Flushed(found.(entries := AllMarked(found.entries)), ran.world, EventsOf(ran.world.mem, work, |work|), true)
    else Flushed(found, ran.world, [], false)
  }

  /** A flush that succeeds marks every changed record as sent; one that fails marks none and hands on no event. */
  lemma FlushMarks(t: Contents, w: World, refuse: set<Ptr>)
    ensures var f := FlushAll(t, w, refuse);
            && |f.tracked.entries| == |t.entries| && f.tracked.byPK == t.byPK && (!f.ok ==> f.events == [])
            && forall i | 0 <= i < |t.entries| ::
                 var e, d := t.entries[i], f.tracked.entries[i];
                 && d.entity == e.entity && d.snapshot == e.snapshot && d.hardDelete == e.hardDelete && d.forceUpdate == e.forceUpdate
                 && d.state == (if IsDirty(w.mem, e) then Modified else e.state)
                 && (d.flushed <==> e.flushed || (f.ok && !d.state.Unchanged?))
  {
    hide RunList, Work, Diff;
  }

  // ---- The second flush emits nothing -------------------------------------------------------

  lemma {:induction false} NothingPending(entries: seq<Entry>, state: EntityState, n: nat)
    requires n <= |entries| && !state.Unchanged?
    requires forall i | 0 <= i < |entries| :: entries[i].flushed || entries[i].state.Unchanged?
    ensures Pending(entries, state, n) == []
  {
    if n > 0 { NothingPending(entries, state, n - 1); }
  }

  /** Statements leave the columns and events of every entity as they were, and a key that is set. */
  ghost predicate KeepsValues(before: Memory, after: Memory) {
    forall p :: At(after, p).fields == At(before, p).fields && At(after, p).events == At(before, p).events
  }

  lemma StatementKeepsValues(w: World, e: Entry, refuse: set<Ptr>)
    requires Statement(w, e, refuse).Some?
    ensures KeepsValues(w.mem, Statement(w, e, refuse).value.mem)
  {
  }

  lemma {:induction false} RunKeepsValues(w: World, work: seq<Entry>, n: nat, refuse: set<Ptr>)
    requires n <= |work|
    ensures KeepsValues(w.mem, RunList(w, work, n, refuse).world.mem)
  {
    if n > 0 {
      RunKeepsValues(w, work, n - 1, refuse);
      var r := RunList(w, work, n - 1, refuse);
      if r.ok && Statement(r.world, work[n - 1], refuse).Some? { StatementKeepsValues(r.world, work[n - 1], refuse); }
    }
  }

  /** Once found and emitted, nothing is found again in unchanged values. */
  lemma FoundOnce(t: Contents, before: Memory, after: Memory)
    requires KeepsValues(before, after)
    ensures var marked := AfterDetect(t, before).(entries := AllMarked(AfterDetect(t, before).entries));
            && AfterDetect(marked, after) == marked
            && forall i | 0 <= i < |marked.entries| :: marked.entries[i].flushed || marked.entries[i].state.Unchanged?
  {
    var marked := AfterDetect(t, before).(entries := AllMarked(AfterDetect(t, before).entries));
    forall i | 0 <= i < |t.entries| ensures Detected(after, marked.entries[i]) == marked.entries[i] { }
    assert AfterDetect(marked, after).entries == marked.entries;
  }

  lemma NoWork(entries: seq<Entry>)
    requires forall i | 0 <= i < |entries| :: entries[i].flushed || entries[i].state.Unchanged?
    ensures Work(entries) == [] && AllMarked(entries) == entries
  {
    NothingPending(entries, Added, |entries|);
    NothingPending(entries, Modified, |entries|);
    NothingPending(entries, Deleted, |entries|);
  }

  /** Flushing again at once sends no statement, collects no event and changes no bookkeeping. */
  lemma SecondFlushIsEmpty(t: Contents, w: World, refuse: set<Ptr>, again: set<Ptr>)
    requires FlushAll(t, w, refuse).ok
    ensures var first := FlushAll(t, w, refuse);
            FlushAll(first.tracked, first.world, again) == Flushed(first.tracked, first.world, [], true)
  {
    var work := Work(AfterDetect(t, w.mem).entries);
    hide AfterDetect, AllMarked, Work, KeepsValues;
    RunKeepsValues(w, work, |work|, refuse);
    FoundOnce(t, w.mem, FlushAll(t, w, refuse).world.mem);
    NoWork(FlushAll(t, w, refuse).tracked.entries);
  }

  // ---- The work list ------------------------------------------------------------------------

  lemma Unshared(all: seq<Entry>, a: Entry, b: Entry)
    requires OneEach(all) && a in all && b in all && a != b
    ensures a.entity != b.entity
  {
  }

  lemma {:induction false} PendingOnce(entries: seq<Entry>, state: EntityState, n: nat)
    requires OneEach(entries) && n <= |entries|
    ensures OneEach(Pending(entries, state, n))
    ensures forall e :: e in Pending(entries, state, n) <==> exists i | 0 <= i < n :: entries[i] == e && e.state == state && !e.flushed
  {
    if n > 0 { PendingOnce(entries, state, n - 1); }
  }

  lemma WorkOnce(entries: seq<Entry>)
    requires OneEach(entries)
    ensures OneEach(Work(entries))
    ensures forall e :: e in Work(entries) <==> e in entries && !e.flushed && !e.state.Unchanged?
  {
    PendingOnce(entries, Added, |entries|);
    PendingOnce(entries, Modified, |entries|);
    PendingOnce(entries, Deleted, |entries|);
    var a, m, d := PendingIn(entries, Added), PendingIn(entries, Modified), PendingIn(entries, Deleted);
    forall x, y | x in entries && y in entries && x != y ensures x.entity != y.entity { Unshared(entries, x, y); }
    JoinOnce(a, m);
    JoinOnce(a + m, d);
  }

  lemma JoinOnce(a: seq<Entry>, b: seq<Entry>)
    requires OneEach(a) && OneEach(b) && forall x, y | x in a && y in b :: x.entity != y.entity
    ensures OneEach(a + b)
  {
    forall i, j | 0 <= i < j < |a + b| ensures (a + b)[i].entity != (a + b)[j].entity {
      if i < |a| <= j { assert a[i] in a && b[j - |a|] in b; }
    }
  }

  /** Inserts before updates before deletes. */
  function Rank(state: EntityState): nat { match state case Added => 0 case Modified => 1 case Deleted => 2 case Unchanged => 3 }

  /** One record was tracked before another. */
  predicate TrackedBefore(entries: seq<Entry>, a: Entry, b: Entry) { exists x, y | 0 <= x < y < |entries| :: entries[x] == a && entries[y] == b }

  /** The order in which two records are sent. */
  predicate SentBefore(entries: seq<Entry>, a: Entry, b: Entry) {
    Rank(a.state) < Rank(b.state) || (a.state == b.state && TrackedBefore(entries, a, b))
  }

  ghost predicate InSendingOrder(entries: seq<Entry>, sent: seq<Entry>) {
    forall i, j | 0 <= i < j < |sent| :: SentBefore(entries, sent[i], sent[j])
  }

  lemma {:induction false} PendingInOrder(entries: seq<Entry>, state: EntityState, n: nat)
    requires n <= |entries|
    ensures forall e | e in Pending(entries, state, n) :: e.state == state && exists x | 0 <= x < n :: entries[x] == e
    ensures InSendingOrder(entries, Pending(entries, state, n))
  {
    if n > 0 {
      PendingInOrder(entries, state, n - 1);
      var before, last := Pending(entries, state, n - 1), entries[n - 1];
      if last.state == state && !last.flushed {
        forall e | e in before ensures SentBefore(entries, e, last) {
          var x :| 0 <= x < n - 1 && entries[x] == e;
          assert TrackedBefore(entries, e, last);
        }
        OrderedMore(entries, before, [last]);
      }
    }
  }

  lemma OrderedMore(entries: seq<Entry>, a: seq<Entry>, b: seq<Entry>)
    requires InSendingOrder(entries, a) && InSendingOrder(entries, b) && forall x, y | x in a && y in b :: SentBefore(entries, x, y)
    ensures InSendingOrder(entries, a + b)
  {
    hide SentBefore;
    var both := a + b;
    forall i, j | 0 <= i < j < |both| ensures SentBefore(entries, both[i], both[j]) {
      if i < |a| <= j { assert a[i] in a && b[j - |a|] in b; }
    }
  }

  /** A flush sends its inserts, then its updates, then its deletes, each in the order the entities were tracked. */
  lemma WorkOrdered(entries: seq<Entry>)
    ensures InSendingOrder(entries, Work(entries))
  {
    var a, m, d := PendingIn(entries, Added), PendingIn(entries, Modified), PendingIn(entries, Deleted);
    PendingInOrder(entries, Added, |entries|);
    PendingInOrder(entries, Modified, |entries|);
    PendingInOrder(entries, Deleted, |entries|);
    hide Pending, TrackedBefore, InSendingOrder;
    OrderedMore(entries, a, m);
    OrderedMore(entries, a + m, d);
  }
}
