/** The change tracker: one record for each tracked entity, found by pointer and by primary key. */
module Tracking {
  import opened Options

  datatype EntityState = Unchanged | Added | Modified | Deleted

  /** What generated code knows of a model. `diffable` models carry a snapshot and a diff function. */
  datatype Meta = Meta(table: string, diffable: bool, appAssigned: bool, softDelete: bool, versioned: bool)

  /** A pointer to an entity; its Go type fixes its model. */
  datatype Ptr = Ptr(address: nat, meta: Meta)

  type Fields = map<string, int>

  /** An entity in memory. Key 0 is the zero key of a row not inserted yet. */
  datatype Entity = Entity(key: int, fields: Fields, version: int, events: seq<int>)

  type Memory = map<Ptr, Entity>

  const BLANK := Entity(0, map[], 0, [])

  function At(mem: Memory, p: Ptr): Entity { if p in mem then mem[p] else BLANK }

  datatype Key = Key(table: string, key: int)

  function KeyOf(mem: Memory, p: Ptr): Option<Key> {
    if At(mem, p).key == 0 then None else Some(Key(p.meta.table, At(mem, p).key))
  }

  function SnapshotOf(mem: Memory, p: Ptr): Option<Fields> {
    if p.meta.diffable then Some(At(mem, p).fields) else None
  }

  /** The columns whose value is not the one in the snapshot. */
  function Diff(fields: Fields, snapshot: Fields): Fields {
    map c | c in fields && (c !in snapshot || snapshot[c] != fields[c]) :: fields[c]
  }

  /** The bookkeeping of one tracked entity. */
  datatype Entry = Entry(entity: Ptr, state: EntityState, snapshot: Option<Fields>, hardDelete: bool, forceUpdate: bool,
                         loaded: bool, everDirty: bool, flushed: bool)

  /** A primary-key slot. A slot whose record has left the tracker is not live. */
  datatype Slot = Slot(entity: Ptr, live: bool)

  /** The tracker's contents: its records in order, and its primary-key index. */
  datatype Contents = Contents(entries: seq<Entry>, byPK: map<Key, Slot>)

  predicate Has(entries: seq<Entry>, p: Ptr) { exists i | 0 <= i < |entries| :: entries[i].entity == p }

  predicate OneEach(entries: seq<Entry>) { forall i, j | 0 <= i < j < |entries| :: entries[i].entity != entries[j].entity }

  function Changed(entries: seq<Entry>, p: Ptr, change: Entry -> Entry): seq<Entry> {
    seq(|entries|, i requires 0 <= i < |entries| => if entries[i].entity == p then change(entries[i]) else entries[i])
  }

  function Without(entries: seq<Entry>, p: Ptr, n: nat): seq<Entry>
    requires n <= |entries|
  {
    if n == 0 then []
    else Without(entries, p, n - 1) + if entries[n - 1].entity == p then [] else [entries[n - 1]]
  }

  // ---- What each operation does to the contents ---------------------------------------------

  function NewEntry(p: Ptr, state: EntityState, snapshot: Option<Fields>, force: bool, loaded: bool): Entry {
    Entry(p, state, snapshot, false, force, loaded, false, false)
  }

  function With(t: Contents, mem: Memory, e: Entry, indexed: bool): Contents {
    var key := KeyOf(mem, e.entity);
    Contents(t.entries + [e], if indexed && key.Some? then t.byPK[key.value := Slot(e.entity, true)] else t.byPK)
  }

  /** The canonical instance for a row that was just loaded. */
  function Canonical(t: Contents, mem: Memory, p: Ptr): Ptr {
    var key := KeyOf(mem, p);
    if !Has(t.entries, p) && key.Some? && key.value in t.byPK then t.byPK[key.value].entity else p
  }

  function AfterTrack(t: Contents, mem: Memory, p: Ptr, snapshot: Option<Fields>): Contents {
    var key := KeyOf(mem, p);
    if Has(t.entries, p) || (key.Some? && key.value in t.byPK) then t
    else With(t, mem, NewEntry(p, Unchanged, snapshot, false, true), true)
  }

  function AfterMarkAdded(t: Contents, mem: Memory, p: Ptr): Contents {
    if Has(t.entries, p) then t else With(t, mem, NewEntry(p, Added, None, false, false), true)
  }

  /** Attaching never makes a primary-key slot. */
  function AfterAttach(t: Contents, mem: Memory, p: Ptr, state: EntityState): Contents {
    if Has(t.entries, p) then t.(entries := Changed(t.entries, p, (e: Entry) => e.(state := state, forceUpdate := state.Modified?)))
    else With(t, mem, NewEntry(p, state, if state.Unchanged? then SnapshotOf(mem, p) else None, state.Modified?, state.Unchanged?), false)
  }

  /** The record's own slot goes; a slot left under another key is dead from here on. */
  function Unslotted(byPK: map<Key, Slot>, mem: Memory, p: Ptr): map<Key, Slot> {
    map k | k in byPK && !(KeyOf(mem, p) == Some(k) && byPK[k] == Slot(p, true)) ::
      if byPK[k].entity == p then byPK[k].(live := false) else byPK[k]
  }

  function AfterDetach(t: Contents, mem: Memory, p: Ptr): Contents {
    if Has(t.entries, p) then Contents(Without(t.entries, p, |t.entries|), Unslotted(t.byPK, mem, p)) else t
  }

  predicate PendingInsert(entries: seq<Entry>, p: Ptr) {
    exists i | 0 <= i < |entries| :: entries[i].entity == p && entries[i].state.Added? && !entries[i].flushed
  }

  /** Removing an entity whose insert was not flushed cancels the insert. */
  function AfterRemove(t: Contents, mem: Memory, p: Ptr): Contents {
    if PendingInsert(t.entries, p) then AfterDetach(t, mem, p)
    else t.(entries := Changed(t.entries, p, (e: Entry) => e.(state := Deleted, everDirty := true, flushed := false)))
  }

  function AfterHardRemove(t: Contents, p: Ptr): Contents {
    t.(entries := Changed(t.entries, p, (e: Entry) => e.(state := Deleted, hardDelete := true, everDirty := true, flushed := false)))
  }

  predicate IsDirty(mem: Memory, e: Entry) {
    e.state.Unchanged? && e.entity.meta.diffable && e.snapshot.Some? && Diff(At(mem, e.entity).fields, e.snapshot.value) != map[]
  }

  function Detected(mem: Memory, e: Entry): Entry { if IsDirty(mem, e) then e.(state := Modified, everDirty := true) else e }

  function AfterDetect(t: Contents, mem: Memory): Contents {
    t.(entries := seq(|t.entries|, i requires 0 <= i < |t.entries| => Detected(mem, t.entries[i])))
  }

  function Unflushed(entries: seq<Entry>): seq<Entry> {
    seq(|entries|, i requires 0 <= i < |entries| => entries[i].(flushed := false))
  }

  /** The entries of one state not emitted yet, in order. */
  function Pending(entries: seq<Entry>, state: EntityState, n: nat): (ps: seq<Entry>)
    requires n <= |entries|
    ensures forall e | e in ps :: e in entries && e.state == state && !e.flushed
  {
    if n == 0 then []
    else Pending(entries, state, n - 1) + if entries[n - 1].state == state && !entries[n - 1].flushed then [entries[n - 1]] else []
  }

  /** Rebuilding the slots from a saved list. */
  function Reindexed(entries: seq<Entry>, mem: Memory, n: nat): map<Key, Slot>
    requires n <= |entries|
  {
    if n == 0 then map[]
    else
      var key := KeyOf(mem, entries[n - 1].entity);
      var before := Reindexed(entries, mem, n - 1);
      if key.Some? then before[key.value := Slot(entries[n - 1].entity, true)] else before
  }

  function AfterRestore(saved: seq<Entry>, mem: Memory): Contents { Contents(saved, Reindexed(saved, mem, |saved|)) }

  function Settled(mem: Memory, e: Entry): Entry {
    if e.state.Unchanged? then e.(flushed := false)
    else Entry(e.entity, Unchanged, SnapshotOf(mem, e.entity), e.hardDelete, false, true, false, false)
  }

  /** After a commit: deleted records go, the others start over from what they now hold. */
  function AfterCommit(t: Contents, mem: Memory, n: nat): Contents
    requires n <= |t.entries|
  {
    if n == 0 then Contents([], t.byPK)
    else
      var before, e := AfterCommit(t, mem, n - 1), t.entries[n - 1];
      match e.state
      case Added => With(before, mem, Settled(mem, e), true)
      case Modified => With(before, mem, Settled(mem, e), false)
      case Unchanged => With(before, mem, Settled(mem, e), false)
      case Deleted => before.(byPK := Unslotted(before.byPK, mem, e.entity))
  }

  /** Detection changes exactly the unchanged records with a column that is not the one in their snapshot. */
  lemma DetectionExact(mem: Memory, e: Entry)
    ensures var fields := At(mem, e.entity).fields;
            var changed := && e.state.Unchanged? && e.entity.meta.diffable && e.snapshot.Some?
                           && exists c | c in fields :: c !in e.snapshot.value || e.snapshot.value[c] != fields[c];
            Detected(mem, e) == if changed then e.(state := Modified, everDirty := true) else e
  {
    if e.snapshot.Some? {
      var fields, snapshot := At(mem, e.entity).fields, e.snapshot.value;
      if c :| c in fields && (c !in snapshot || snapshot[c] != fields[c]) { assert c in Diff(fields, snapshot); }
      if Diff(fields, snapshot) != map[] { var c :| c in Diff(fields, snapshot); assert c in fields; }
    }
  }

  // ---- The tracker itself -------------------------------------------------------------------

  class TrackedEntity {
    const entity: Ptr
    var state: EntityState
    var snapshot: Option<Fields>
    var hardDelete: bool
    var forceUpdate: bool
    var loaded: bool
    var everDirty: bool
    var flushed: bool

    constructor (e: Entry)
      ensures Record() == e
    {
      entity, state, snapshot, hardDelete := e.entity, e.state, e.snapshot, e.hardDelete;
      forceUpdate, loaded, everDirty, flushed := e.forceUpdate, e.loaded, e.everDirty, e.flushed;
    }

    function Record(): Entry
      reads this
    {
      Entry(entity, state, snapshot, hardDelete, forceUpdate, loaded, everDirty, flushed)
    }

    method Write(e: Entry)
      requires e.entity == entity
      modifies this
      ensures Record() == e
    {
      state, snapshot, hardDelete := e.state, e.snapshot, e.hardDelete;
      forceUpdate, loaded, everDirty, flushed := e.forceUpdate, e.loaded, e.everDirty, e.flushed;
    }
  }

  // ---- The pointer index and the slots, as values -------------------------------------------

  /** The pointer index holds exactly the records of the list. */
  ghost predicate WellIndexed(entities: seq<TrackedEntity>, index: map<Ptr, TrackedEntity>) {
    && (forall te | te in entities :: te.entity in index && index[te.entity] == te)
    && (forall p | p in index :: index[p] in entities && index[p].entity == p)
    && (forall i, j | 0 <= i < j < |entities| :: entities[i] != entities[j])
  }

  ghost function SlotsOf(byPK: map<Key, TrackedEntity>, entities: seq<TrackedEntity>): map<Key, Slot> {
    map k | k in byPK :: Slot(byPK[k].entity, byPK[k] in entities)
  }

  lemma IndexedMore(entities: seq<TrackedEntity>, index: map<Ptr, TrackedEntity>, te: TrackedEntity)
    requires WellIndexed(entities, index) && te !in entities && te.entity !in index
    ensures WellIndexed(entities + [te], index[te.entity := te])
  {
  }

  lemma SlotsMore(byPK: map<Key, TrackedEntity>, entities: seq<TrackedEntity>, te: TrackedEntity)
    requires forall k | k in byPK :: byPK[k] != te
    ensures SlotsOf(byPK, entities + [te]) == SlotsOf(byPK, entities)
  {
  }

  lemma SlotsSet(byPK: map<Key, TrackedEntity>, entities: seq<TrackedEntity>, k: Key, te: TrackedEntity)
    requires te in entities
    ensures SlotsOf(byPK[k := te], entities) == SlotsOf(byPK, entities)[k := Slot(te.entity, true)]
  {
  }

  function RecordsOf(es: seq<TrackedEntity>): (rs: seq<Entry>)
    reads es
    ensures |rs| == |es| && forall i | 0 <= i < |es| :: rs[i] == es[i].Record()
  {
    seq(|es|, i requires 0 <= i < |es| reads es => es[i].Record())
  }

  function PendingOf(es: seq<TrackedEntity>, state: EntityState, n: nat): seq<TrackedEntity>
    requires n <= |es|
    reads es
  {
    if n == 0 then []
    else PendingOf(es, state, n - 1) + if es[n - 1].state == state && !es[n - 1].flushed then [es[n - 1]] else []
  }

  lemma {:induction false} PendingRecords(es: seq<TrackedEntity>, state: EntityState, n: nat)
    requires n <= |es|
    ensures RecordsOf(PendingOf(es, state, n)) == Pending(RecordsOf(es), state, n)
    ensures forall te | te in PendingOf(es, state, n) :: te in es
  {
    if n > 0 { PendingRecords(es, state, n - 1); }
  }

  lemma OnlyAt(entities: seq<TrackedEntity>, index: map<Ptr, TrackedEntity>, p: Ptr, i: nat)
    requires WellIndexed(entities, index) && p in index && i < |entities|
    ensures entities[i].entity == p <==> entities[i] == index[p]
  {
  }

  lemma IndexedLess(entities: seq<TrackedEntity>, index: map<Ptr, TrackedEntity>, i: nat)
    requires WellIndexed(entities, index) && i < |entities|
    ensures WellIndexed(entities[..i] + entities[i + 1..], index - {entities[i].entity})
  {
    var less := entities[..i] + entities[i + 1..];
    forall te | te in less ensures te in entities && te != entities[i] {
      var j :| 0 <= j < |less| && less[j] == te;
      assert te == entities[if j < i then j else j + 1];
    }
    forall te | te in entities && te != entities[i] ensures te in less {
      var j :| 0 <= j < |entities| && entities[j] == te;
      assert te == less[if j < i then j else j - 1];
    }
  }

  ghost predicate DistinctEntities(es: seq<TrackedEntity>) {
    forall i, j | 0 <= i < j < |es| :: es[i].entity != es[j].entity
  }

  /** The pointer index of the first n records. */
  ghost predicate IndexedTo(entities: seq<TrackedEntity>, index: map<Ptr, TrackedEntity>, n: nat)
    requires n <= |entities|
  {
    && (forall p | p in index :: index[p] in entities && index[p].entity == p)
    && (forall j | 0 <= j < n :: entities[j].entity in index && index[entities[j].entity] == entities[j])
  }

  lemma IndexedNext(entities: seq<TrackedEntity>, index: map<Ptr, TrackedEntity>, n: nat)
    requires n < |entities| && IndexedTo(entities, index, n)
    requires DistinctEntities(entities)
    ensures IndexedTo(entities, index[entities[n].entity := entities[n]], n + 1)
  {
  }

  lemma AllIndexed(entities: seq<TrackedEntity>, index: map<Ptr, TrackedEntity>)
    requires IndexedTo(entities, index, |entities|)
    requires DistinctEntities(entities)
    ensures WellIndexed(entities, index)
  {
  }

  /** The slot map after the record at one position leaves: its own slot is deleted if it is the one there. */
  function SlotDropped(byPK: map<Key, TrackedEntity>, mem: Memory, te: TrackedEntity): map<Key, TrackedEntity> {
    var key := KeyOf(mem, te.entity);
    if key.Some? && key.value in byPK && byPK[key.value] == te then byPK - {key.value} else byPK
  }

  lemma SlotsLess(byPK: map<Key, TrackedEntity>, entities: seq<TrackedEntity>, index: map<Ptr, TrackedEntity>, mem: Memory, i: nat)
    requires WellIndexed(entities, index) && i < |entities|
    ensures SlotsOf(SlotDropped(byPK, mem, entities[i]), entities[..i] + entities[i + 1..]) ==
            Unslotted(SlotsOf(byPK, entities), mem, entities[i].entity)
  {
    var te, less := entities[i], entities[..i] + entities[i + 1..];
    forall x ensures x in less <==> x in entities && x != te {
      if x in entities && x != te {
        var j :| 0 <= j < |entities| && entities[j] == x;
        assert x == less[if j < i then j else j - 1];
      }
    }
    forall k | k in byPK ensures (byPK[k] == te) == (SlotsOf(byPK, entities)[k] == Slot(te.entity, true)) {
    }
  }

  lemma HasIffIndexed(entities: seq<TrackedEntity>, index: map<Ptr, TrackedEntity>, records: seq<Entry>, p: Ptr)
    requires WellIndexed(entities, index)
    requires |records| == |entities| && forall i | 0 <= i < |records| :: records[i].entity == entities[i].entity
    ensures Has(records, p) <==> p in index
  {
    if p in index {
      var i :| 0 <= i < |entities| && entities[i] == index[p];
      assert records[i].entity == p;
    }
  }

  /** A copy of the list and of every record in it, taken when a savepoint opens. */
  datatype Saved = Saved(entities: seq<TrackedEntity>, states: map<TrackedEntity, Entry>) {
    ghost function Entries(): seq<Entry> {
      seq(|entities|, i requires 0 <= i < |entities| => if entities[i] in states then states[entities[i]] else NewEntry(entities[i].entity, Unchanged, None, false, false))
    }
  }

  class ChangeTracker {
    var entities: seq<TrackedEntity>
    var index: map<Ptr, TrackedEntity>
    var byPK: map<Key, TrackedEntity>
    ghost var Repr: set<TrackedEntity>

    ghost predicate Valid()
      reads this
    {
      WellIndexed(entities, index) && (forall te | te in entities :: te in Repr) && (forall k | k in byPK :: byPK[k] in Repr)
    }

    ghost function Records(): (es: seq<Entry>)
      reads this, Repr
      requires Valid()
      ensures es == RecordsOf(entities)
    {
      RecordsOf(entities)
    }

    ghost function Value(): Contents
      reads this, Repr
      requires Valid()
    {
      Contents(Records(), SlotsOf(byPK, entities))
    }

    constructor ()
      ensures Valid() && fresh(Repr) && Value() == Contents([], map[])
    {
      entities, index, byPK, Repr := [], map[], map[], {};
    }

    method Append(e: Entry) returns (te: TrackedEntity)
      requires Valid() && e.entity !in index
      modifies this`entities, this`index, this`Repr
      ensures Valid() && fresh(te) && Repr == old(Repr) + {te} && te in entities && te.entity == e.entity
      ensures Records() == old(Records()) + [e] && SlotsOf(byPK, entities) == old(SlotsOf(byPK, entities))
    {
      te := new TrackedEntity(e);
      IndexedMore(entities, index, te);
      SlotsMore(byPK, entities, te);
      hide WellIndexed, SlotsOf;
      entities, index, Repr := entities + [te], index[e.entity := te], Repr + {te};
    }

    method Add(e: Entry, mem: Memory, indexed: bool)
      requires Valid() && e.entity !in index
      modifies this
      ensures Valid() && fresh(Repr - old(Repr)) && old(Repr) <= Repr
      ensures Value() == With(old(Value()), mem, e, indexed)
    {
      var te := Append(e);
      hide WellIndexed, SlotsOf;
      var key := KeyOf(mem, e.entity);
      if indexed && key.Some? {
        SlotsSet(byPK, entities, key.value, te);
        byPK := byPK[key.value := te];
      }
    }

    lemma Tracks(p: Ptr)
      requires Valid()
      ensures Has(Value().entries, p) <==> p in index
    {
      HasIffIndexed(entities, index, Records(), p);
    }

    method Contains(p: Ptr) returns (known: bool)
      requires Valid()
      ensures known == Has(Value().entries, p)
    {
      Tracks(p);
      known := p in index;
    }

    method Track(p: Ptr, snapshot: Option<Fields>, mem: Memory) returns (canonical: Ptr)
      requires Valid()
      modifies this
      ensures Valid() && fresh(Repr - old(Repr)) && old(Repr) <= Repr
      ensures canonical == Canonical(old(Value()), mem, p) && Value() == AfterTrack(old(Value()), mem, p, snapshot)
    {
      Tracks(p);
      hide WellIndexed;
      if p in index { return p; }
      var key := KeyOf(mem, p);
      if key.Some? && key.value in byPK { return byPK[key.value].entity; }
      Add(NewEntry(p, Unchanged, snapshot, false, true), mem, true);
      canonical := p;
    }

    method MarkAdded(p: Ptr, mem: Memory)
      requires Valid()
      modifies this
      ensures Valid() && fresh(Repr - old(Repr)) && old(Repr) <= Repr
      ensures Value() == AfterMarkAdded(old(Value()), mem, p)
    {
      Tracks(p);
      hide WellIndexed;
      if p in index { return; }
      Add(NewEntry(p, Added, None, false, false), mem, true);
    }

    /** Writing one record changes the entry of its entity and no other. */
    lemma OneChanged(before: seq<Entry>, p: Ptr, change: Entry -> Entry)
      requires Valid() && p in index && |before| == |entities|
      requires forall i | 0 <= i < |entities| && entities[i] != index[p] :: entities[i].Record() == before[i]
      requires forall i | 0 <= i < |entities| && entities[i] == index[p] :: entities[i].Record() == change(before[i])
      requires forall i | 0 <= i < |entities| :: before[i].entity == entities[i].entity
      ensures Records() == Changed(before, p, change)
    {
      forall i | 0 <= i < |entities| ensures Records()[i] == Changed(before, p, change)[i] { OnlyAt(entities, index, p, i); }
    }

    method Attach(p: Ptr, state: EntityState, mem: Memory)
      requires Valid()
      modifies this, Repr
      ensures Valid() && fresh(Repr - old(Repr)) && old(Repr) <= Repr
      ensures Value() == AfterAttach(old(Value()), mem, p, state)
    {
      Tracks(p);
      ghost var before := Records();
      if p in index {
        var te := index[p];
        te.state := state;
        te.forceUpdate := state.Modified?;
        OneChanged(before, p, (e: Entry) => e.(state := state, forceUpdate := state.Modified?));
        return;
      }
      Add(NewEntry(p, state, if state.Unchanged? then SnapshotOf(mem, p) else None, state.Modified?, state.Unchanged?), mem, false);
    }

    /** Reports false for an entity that is not tracked. */
    method MarkDeleted(p: Ptr, mem: Memory) returns (ok: bool)
      requires Valid()
      modifies this, Repr
      ensures Valid() && Repr == old(Repr)
      ensures ok == Has(old(Value()).entries, p)
      ensures Value() == if ok then AfterRemove(old(Value()), mem, p) else old(Value())
    {
      Tracks(p);
      if p !in index { return false; }
      ghost var before := Records();
      var te := index[p];
      ok := true;
      IsPending(p);
      if te.state.Added? && !te.flushed {
        Detach(p, mem);
        return;
      }
      te.state, te.everDirty, te.flushed := Deleted, true, false;
      OneChanged(before, p, (e: Entry) => e.(state := Deleted, everDirty := true, flushed := false));
    }

    lemma IsPending(p: Ptr)
      requires Valid() && p in index
      ensures PendingInsert(Value().entries, p) <==> index[p].state.Added? && !index[p].flushed
    {
      var i :| 0 <= i < |entities| && entities[i] == index[p];
      assert Records()[i].entity == p;
      forall j | 0 <= j < |entities| ensures Records()[j].entity == p <==> entities[j] == index[p] { OnlyAt(entities, index, p, j); }
    }

    method MarkHardDeleted(p: Ptr) returns (ok: bool)
      requires Valid()
      modifies Repr
      ensures Valid()
      ensures ok == Has(old(Value()).entries, p)
      ensures Value() == if ok then AfterHardRemove(old(Value()), p) else old(Value())
    {
      Tracks(p);
      if p !in index { return false; }
      ghost var before := Records();
      var te := index[p];
      te.state, te.hardDelete, te.everDirty, te.flushed := Deleted, true, true, false;
      OneChanged(before, p, (e: Entry) => e.(state := Deleted, hardDelete := true, everDirty := true, flushed := false));
      ok := true;
    }

    method Detach(p: Ptr, mem: Memory)
      requires Valid()
      modifies this
      ensures Valid() && Repr == old(Repr)
      ensures Value() == AfterDetach(old(Value()), mem, p)
    {
      Tracks(p);
      if p !in index { return; }
      var i := Position(index[p]);
      WithoutAt(i);
      hide WellIndexed, SlotsOf, Without, Unslotted;
      RemoveAt(i, mem);
    }

    method RemoveAt(i: nat, mem: Memory)
      requires Valid() && i < |entities|
      modifies this
      ensures Valid() && Repr == old(Repr)
      ensures |entities| == |old(entities)| - 1
      ensures Value() == Contents(old(Records()[..i] + Records()[i + 1..]), Unslotted(old(Value()).byPK, mem, old(entities[i]).entity))
    {
      RecordsSplit(entities, i);
      ghost var left := RecordsOf(entities[..i] + entities[i + 1..]);
      IndexedLess(entities, index, i);
      SlotsLess(byPK, entities, index, mem, i);
      hide WellIndexed, SlotsOf, Unslotted;
      var te := entities[i];
      var key := KeyOf(mem, te.entity);
      if key.Some? && key.value in byPK && byPK[key.value] == te { byPK := byPK - {key.value}; }
      index := index - {te.entity};
      entities := entities[..i] + entities[i + 1..];
      assert Records() == left;
    }

    method Position(te: TrackedEntity) returns (i: nat)
      requires te in entities
      ensures i < |entities| && entities[i] == te
    {
      i := 0;
      while entities[i] != te
        invariant 0 <= i < |entities| && te !in entities[..i]
        decreases |entities| - i
      {
        i := i + 1;
      }
    }

    lemma WithoutAt(i: nat)
      requires Valid() && i < |entities|
      ensures Without(Records(), entities[i].entity, |entities|) == Records()[..i] + Records()[i + 1..]
    {
      var p := entities[i].entity;
      forall j | 0 <= j < |entities| && j != i ensures Records()[j].entity != p { OnlyAt(entities, index, p, j); }
      hide WellIndexed;
      WithoutOne(Records(), p, i, |entities|);
    }

    method DetectChanges(mem: Memory)
      requires Valid()
      modifies Repr
      ensures Valid() && Value() == AfterDetect(old(Value()), mem)
    {
      for i := 0 to |entities|
        invariant Valid()
        invariant forall j | 0 <= j < i :: entities[j].Record() == Detected(mem, old(entities[j].Record()))
        invariant forall j | i <= j < |entities| :: entities[j].Record() == old(entities[j].Record())
      {
        var te := entities[i];
        if te.state.Unchanged? && te.entity.meta.diffable && te.snapshot.Some? {
          if Diff(At(mem, te.entity).fields, te.snapshot.value) != map[] {
            te.state, te.everDirty := Modified, true;
          }
        }
      }
    }

    /** The records to insert, to update and to delete, each in tracking order. */
    method GetPendingChanges() returns (added: seq<TrackedEntity>, modified: seq<TrackedEntity>, deleted: seq<TrackedEntity>)
      requires Valid()
      ensures added == PendingOf(entities, Added, |entities|) && RecordsOf(added) == Pending(Value().entries, Added, |entities|)
      ensures modified == PendingOf(entities, Modified, |entities|) && RecordsOf(modified) == Pending(Value().entries, Modified, |entities|)
      ensures deleted == PendingOf(entities, Deleted, |entities|) && RecordsOf(deleted) == Pending(Value().entries, Deleted, |entities|)
    {
      added, modified, deleted := [], [], [];
      for i := 0 to |entities|
        invariant added == PendingOf(entities, Added, i)
        invariant modified == PendingOf(entities, Modified, i)
        invariant deleted == PendingOf(entities, Deleted, i)
      {
        var te := entities[i];
        if !te.flushed {
          match te.state
          case Added => added := added + [te];
          case Modified => modified := modified + [te];
          case Deleted => deleted := deleted + [te];
          case Unchanged =>
        }
      }
      PendingRecords(entities, Added, |entities|);
      PendingRecords(entities, Modified, |entities|);
      PendingRecords(entities, Deleted, |entities|);
    }

    method ResetFlushed()
      requires Valid()
      modifies Repr
      ensures Valid() && Value() == old(Value()).(entries := Unflushed(old(Value()).entries))
    {
      for i := 0 to |entities|
        invariant Valid()
        invariant forall j | 0 <= j < i :: entities[j].Record() == old(entities[j].Record()).(flushed := false)
        invariant forall j | i <= j < |entities| :: entities[j].Record() == old(entities[j].Record())
      {
        entities[i].flushed := false;
      }
    }

    method Save() returns (saved: Saved)
      requires Valid()
      ensures Savable(saved) && saved.entities == entities && saved.Entries() == Value().entries
    {
      var states := map[];
      for i := 0 to |entities|
        invariant forall te :: te in states <==> te in entities[..i]
        invariant forall te | te in states :: states[te] == te.Record()
      {
        states := states[entities[i] := entities[i].Record()];
      }
      saved := Saved(entities, states);
      assert entities[..|entities|] == entities;
    }

    ghost predicate Savable(saved: Saved)
      reads this
    {
      && (forall te | te in saved.entities :: te in Repr && te in saved.states && saved.states[te].entity == te.entity)
      && DistinctEntities(saved.entities)
    }

    method WriteAll(saved: Saved)
      requires Savable(saved)
      modifies Repr
      ensures RecordsOf(saved.entities) == saved.Entries()
    {
      for i := 0 to |saved.entities|
        invariant forall j | 0 <= j < i :: saved.entities[j].Record() == saved.states[saved.entities[j]]
      {
        assert saved.entities[i] in saved.entities;
        saved.entities[i].Write(saved.states[saved.entities[i]]);
      }
    }

    /** Rebuilds the pointer index and the slots from the list. */
    method Reindex(ghost es: seq<Entry>, mem: Memory)
      requires DistinctEntities(entities) && es == RecordsOf(entities)
      modifies this`index, this`byPK
      ensures WellIndexed(entities, index) && (forall k | k in byPK :: byPK[k] in entities)
      ensures SlotsOf(byPK, entities) == Reindexed(es, mem, |es|)
    {
      var byPtr, slots := map[], map[];
      assert IndexedTo(entities, byPtr, 0) && SlotsOf(slots, entities) == map[];
      hide SlotsOf, IndexedTo, DistinctEntities, WellIndexed, RecordsOf;
      for i := 0 to |entities|
        invariant IndexedTo(entities, byPtr, i)
        invariant forall k | k in slots :: slots[k] in entities
        invariant SlotsOf(slots, entities) == Reindexed(es, mem, i)
      {
        var te := entities[i];
        IndexedNext(entities, byPtr, i);
        byPtr := byPtr[te.entity := te];
        var key := KeyOf(mem, te.entity);
        if key.Some? {
          SlotsSet(slots, entities, key.value, te);
          slots := slots[key.value := te];
        }
      }
      AllIndexed(entities, byPtr);
      index, byPK := byPtr, slots;
    }

    method Restore(saved: Saved, mem: Memory)
      requires Valid() && Savable(saved)
      modifies this, Repr
      ensures Valid() && Repr == old(Repr)
      ensures Value() == AfterRestore(saved.Entries(), mem)
    {
      hide WellIndexed, SlotsOf, RecordsOf, Reindexed;
      WriteAll(saved);
      entities := saved.entities;
      Reindex(saved.Entries(), mem);
    }

    /** Filters the list in place: survivors move up, deleted records go. */
    method PostCommit(mem: Memory)
      requires Valid()
      modifies this, Repr
      ensures Valid() && Repr == old(Repr)
      ensures Value() == AfterCommit(old(Value()), mem, |old(Value()).entries|)
    {
      ghost var before := Value();
      ghost var i: nat := 0;
      var j: nat := 0;
      assert Filtered(before, mem, 0, 0, Value());
      hide *;
      while j < |entities|
        invariant Valid() && Repr == old(Repr) && j <= |entities|
        invariant Filtered(before, mem, i, j, Value())
        decreases |entities| - j
      {
        j := FilterOne(before, i, j, mem);
        i := i + 1;
      }
      Sizes();
      FilteredAll(before, mem, i, j, Value());
    }

    lemma Sizes()
      requires Valid()
      ensures |Value().entries| == |entities|
    {
    }

    method FilterOne(ghost before: Contents, ghost i: nat, j: nat, mem: Memory) returns (next: nat)
      requires Valid() && j < |entities| && Filtered(before, mem, i, j, Value())
      modifies this, Repr
      ensures Valid() && Repr == old(Repr) && next <= |entities| && |entities| - next < |old(entities)| - j
      ensures Filtered(before, mem, i + 1, next, Value())
    {
      hide AfterCommit, Filtered, WellIndexed, SlotsOf, Unslotted;
      if entities[j].state.Deleted? {
        FilteredDrop(before, mem, i, j, Value());
        RemoveAt(j, mem);
        next := j;
      } else {
        FilteredKeep(before, mem, i, j, Value());
        SettleAt(j, mem);
        next := j + 1;
      }
    }

    method SettleAt(j: nat, mem: Memory)
      requires Valid() && j < |entities|
      modifies this`byPK, Repr
      ensures Valid() && entities == old(entities) && Value() == Kept(old(Value()), mem, j)
    {
      hide WellIndexed, SlotsOf;
      ghost var records := Records();
      var te := entities[j];
      var was := te.Record();
      te.Write(Settled(mem, was));
      var key := KeyOf(mem, te.entity);
      if was.state.Added? && key.Some? {
        SlotsSet(byPK, entities, key.value, te);
        byPK := byPK[key.value := te];
      }
      OneWritten(records, j);
    }

    lemma OneWritten(records: seq<Entry>, j: nat)
      requires Valid() && |records| == |entities| && j < |entities|
      requires forall i | 0 <= i < |entities| && entities[i] != entities[j] :: entities[i].Record() == records[i]
      ensures Records() == records[j := entities[j].Record()]
    {
    }
  }

  /** The contents with the record at one position settled. */
  function Kept(t: Contents, mem: Memory, j: nat): Contents
    requires j < |t.entries|
  {
    var e := t.entries[j];
    var key := KeyOf(mem, e.entity);
    Contents(t.entries[j := Settled(mem, e)],
             if e.state.Added? && key.Some? then t.byPK[key.value := Slot(e.entity, true)] else t.byPK)
  }

  /** The first i records are settled: the j that survive stand first, and the rest follow untouched. */
  ghost predicate Filtered(before: Contents, mem: Memory, i: nat, j: nat, now: Contents) {
    && i <= |before.entries| && j <= |now.entries| && |now.entries| - j == |before.entries| - i
    && AfterCommit(before, mem, i) == Contents(now.entries[..j], now.byPK)
    && before.entries[i..] == now.entries[j..]
  }

  lemma FilteredHead(before: Contents, mem: Memory, i: nat, j: nat, now: Contents)
    requires Filtered(before, mem, i, j, now) && j < |now.entries|
    ensures i < |before.entries| && before.entries[i] == now.entries[j] && before.entries[i + 1..] == now.entries[j + 1..]
  {
    assert before.entries[i] == before.entries[i..][0];
    assert before.entries[i + 1..] == before.entries[i..][1..];
  }

  lemma FilteredDrop(before: Contents, mem: Memory, i: nat, j: nat, now: Contents)
    requires Filtered(before, mem, i, j, now) && j < |now.entries| && now.entries[j].state.Deleted?
    ensures Filtered(before, mem, i + 1, j,
                     Contents(now.entries[..j] + now.entries[j + 1..], Unslotted(now.byPK, mem, now.entries[j].entity)))
  {
    FilteredHead(before, mem, i, j, now);
    var left := now.entries[..j] + now.entries[j + 1..];
    assert left[..j] == now.entries[..j] && left[j..] == now.entries[j + 1..];
  }

  lemma FilteredKeep(before: Contents, mem: Memory, i: nat, j: nat, now: Contents)
    requires Filtered(before, mem, i, j, now) && j < |now.entries| && !now.entries[j].state.Deleted?
    ensures Filtered(before, mem, i + 1, j + 1, Kept(now, mem, j))
  {
    FilteredHead(before, mem, i, j, now);
    var kept := Kept(now, mem, j);
    assert kept.entries[..j + 1] == now.entries[..j] + [Settled(mem, now.entries[j])];
    assert kept.entries[j + 1..] == now.entries[j + 1..];
  }

  lemma FilteredAll(before: Contents, mem: Memory, i: nat, j: nat, now: Contents)
    requires Filtered(before, mem, i, j, now) && j == |now.entries|
    ensures now == AfterCommit(before, mem, |before.entries|)
  {
    assert now.entries[..j] == now.entries;
  }

  lemma RecordsSplit(es: seq<TrackedEntity>, i: nat)
    requires i < |es|
    ensures RecordsOf(es[..i] + es[i + 1..]) == RecordsOf(es)[..i] + RecordsOf(es)[i + 1..]
  {
  }

  lemma {:induction false} WithoutOne(entries: seq<Entry>, p: Ptr, i: nat, n: nat)
    requires i < |entries| && entries[i].entity == p && n <= |entries|
    requires forall j | 0 <= j < |entries| && j != i :: entries[j].entity != p
    ensures Without(entries, p, n) == if n <= i then entries[..n] else entries[..i] + entries[i + 1..n]
  {
    if n > 0 { WithoutOne(entries, p, i, n - 1); }
  }
}