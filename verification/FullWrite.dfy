/** A diff flush is a full write: what it leaves is what storing every tracked entity leaves. */
module FullWrite {
  // A flush writes only diffs; it leaves the user columns a naive writer leaves that stores every tracked entity in
  // full.

  import opened Options
  import opened Tracking
  import opened Flush

  /** What a user sees of a row: versions and timestamps are the store's own. */
  datatype Shown = Shown(fields: Fields, deleted: bool)

  type View = map<Key, Shown>

  function Seen(rows: Rows): View { map k | k in rows :: Shown(rows[k].fields, rows[k].deleted) }

  // ---- The naive writer ---------------------------------------------------------------------

  predicate Owns(mem: Memory, e: Entry, k: Key) { KeyOf(mem, e.entity) == Some(k) }

  predicate Soft(e: Entry) { e.entity.meta.softDelete && !e.hardDelete }

  /** One entity stored in full, or removed. */
  function StoreOne(view: View, mem: Memory, e: Entry): View {
    var key := KeyOf(mem, e.entity);
    if key.None? then view
    else if !e.state.Deleted? then view[key.value := Shown(At(mem, e.entity).fields, key.value in view && view[key.value].deleted)]
    else if key.value !in view then view
    else if Soft(e) then view[key.value := view[key.value].(deleted := true)]
    else view - {key.value}
  }

  function StoreAll(view: View, mem: Memory, es: seq<Entry>, n: nat): View
    requires n <= |es|
  {
    if n == 0 then view else StoreOne(StoreAll(view, mem, es, n - 1), mem, es[n - 1])
  }

  // ---- When the two may be compared ---------------------------------------------------------

  /** The database holds what the record's snapshot says, or what its flush wrote. */
  ghost predicate Faithful(w: World, e: Entry) {
    var p, k := e.entity, RowKey(w.mem, e.entity);
    var fields := At(w.mem, p).fields;
    if e.state.Added? && !e.flushed then !p.meta.appAssigned ==> k.key == 0
    else
      && k.key != 0
      && (e.flushed && !e.state.Deleted? && !e.state.Unchanged? ==> k in w.rows && w.rows[k].fields == fields)
      && (e.flushed && e.state.Deleted? ==> if Soft(e) then k in w.rows ==> w.rows[k].deleted else k !in w.rows)
      && (e.state.Unchanged? || (e.state.Modified? && !e.flushed && !e.forceUpdate) ==>
            p.meta.diffable && !e.forceUpdate && !e.flushed && k in w.rows && e.snapshot == Some(w.rows[k].fields) && fields.Keys == w.rows[k].fields.Keys)
      && (e.state.Modified? && !e.flushed && e.forceUpdate ==> fields != map[] && (k in w.rows ==> fields.Keys == w.rows[k].fields.Keys))
  }

  /** One tracked instance for each row, and generated keys above every key of their table. */
  ghost predicate Separate(es: seq<Entry>, w: World) {
    && (forall i, j, k | 0 <= i < j < |es| && Owns(w.mem, es[i], k) :: !Owns(w.mem, es[j], k))
    && (forall i | 0 <= i < |es| :: At(w.mem, es[i].entity).key < w.nextKey || es[i].entity.meta.appAssigned)
    && (forall i, j | 0 <= i < |es| && 0 <= j < |es| && es[i].entity.meta.table == es[j].entity.meta.table ::
          es[i].entity.meta.appAssigned == es[j].entity.meta.appAssigned)
    && w.nextKey > 0
  }

  ghost predicate Comparable(es: seq<Entry>, w: World) {
    OneEach(es) && Separate(es, w) && forall i | 0 <= i < |es| :: Faithful(w, es[i])
  }

  // ---- One statement ------------------------------------------------------------------------

  lemma DiffRestores(fields: Fields, snapshot: Fields)
    requires fields.Keys == snapshot.Keys
    ensures snapshot + Diff(fields, snapshot) == fields
    ensures Diff(fields, snapshot) == map[] ==> fields == snapshot
  {
    forall c | c in fields ensures (snapshot + Diff(fields, snapshot))[c] == fields[c] { }
    if Diff(fields, snapshot) == map[] {
      forall c | c in fields ensures fields[c] == snapshot[c] { assert c !in Diff(fields, snapshot); }
    }
  }

  lemma FullColumns(row: Fields, fields: Fields)
    requires fields.Keys == row.Keys
    ensures row + fields == fields
  {
  }

  lemma UpdateStores(w: World, e: Entry)
    requires Faithful(w, e) && !e.flushed && e.state.Modified? && Update(w, e).Some?
    ensures var next := Update(w, e).value;
            KeyOf(next.mem, e.entity).Some? && Seen(next.rows) == StoreOne(Seen(w.rows), next.mem, e)
  {
    var next := Update(w, e).value;
    var k := RowKey(w.mem, e.entity);
    if k in w.rows {
      if e.forceUpdate {
        FullColumns(w.rows[k].fields, At(w.mem, e.entity).fields);
      } else {
        DiffRestores(At(w.mem, e.entity).fields, w.rows[k].fields);
      }
    }
    assert Seen(next.rows) == StoreOne(Seen(w.rows), next.mem, e);
  }

  lemma DeleteStores(w: World, e: Entry)
    requires Faithful(w, e) && !e.flushed && e.state.Deleted? && Delete(w, e).Some?
    ensures var next := Delete(w, e).value;
            KeyOf(next.mem, e.entity).Some? && Seen(next.rows) == StoreOne(Seen(w.rows), next.mem, e)
  {
  }

  lemma InsertStores(w: World, e: Entry)
    requires Faithful(w, e) && !e.flushed && e.state.Added? && w.nextKey > 0 && Insert(w, e.entity).Some?
    ensures var next := Insert(w, e.entity).value;
            KeyOf(next.mem, e.entity).Some? && Seen(next.rows) == StoreOne(Seen(w.rows), next.mem, e)
  {
  }

  /** A statement touches the row of its own entity only, and leaves there what storing the entity in full leaves. */
  lemma StatementStores(w: World, e: Entry, refuse: set<Ptr>)
    requires Faithful(w, e) && !e.flushed && !e.state.Unchanged? && w.nextKey > 0 && Statement(w, e, refuse).Some?
    ensures var next := Statement(w, e, refuse).value;
            && KeyOf(next.mem, e.entity).Some?
            && Seen(next.rows) == StoreOne(Seen(w.rows), next.mem, e)
  {
    hide Insert, Update, Delete, Seen, StoreOne, Faithful;
    match e.state
    case Added => InsertStores(w, e);
    case Modified => UpdateStores(w, e);
    case Deleted => DeleteStores(w, e);
  }

  // ---- Many statements ----------------------------------------------------------------------

  function ViewAt(view: View, k: Key): Option<Shown> { if k in view then Some(view[k]) else None }

  /** Storing one entity changes its own key only, by a rule that looks at that key only. */
  lemma StoreOneAt(a: View, b: View, mem: Memory, e: Entry, k: Key)
    ensures !Owns(mem, e, k) ==> ViewAt(StoreOne(a, mem, e), k) == ViewAt(a, k)
    ensures ViewAt(a, k) == ViewAt(b, k) ==> ViewAt(StoreOne(a, mem, e), k) == ViewAt(StoreOne(b, mem, e), k)
  {
  }

  lemma {:induction false} NotOwned(view: View, mem: Memory, es: seq<Entry>, n: nat, k: Key)
    requires n <= |es| && forall i | 0 <= i < n :: !Owns(mem, es[i], k)
    ensures ViewAt(StoreAll(view, mem, es, n), k) == ViewAt(view, k)
  {
    hide StoreOne, ViewAt;
    if n > 0 {
      NotOwned(view, mem, es, n - 1, k);
      StoreOneAt(StoreAll(view, mem, es, n - 1), view, mem, es[n - 1], k);
    }
  }

  /** When one entity of the list owns a key, the order of the list does not matter there. */
  lemma {:induction false} OwnedOnce(view: View, mem: Memory, es: seq<Entry>, n: nat, i: nat, k: Key)
    requires i < n <= |es| && Owns(mem, es[i], k) && forall j | 0 <= j < n && j != i :: !Owns(mem, es[j], k)
    ensures ViewAt(StoreAll(view, mem, es, n), k) == ViewAt(StoreOne(view, mem, es[i]), k)
  {
    hide StoreOne, ViewAt;
    var before := StoreAll(view, mem, es, n - 1);
    StoreOneAt(before, view, mem, es[n - 1], k);
    if i == n - 1 { NotOwned(view, mem, es, n - 1, k); } else { OwnedOnce(view, mem, es, n - 1, i, k); }
  }

  lemma {:induction false} SameMemory(view: View, a: Memory, b: Memory, es: seq<Entry>, n: nat)
    requires n <= |es| && forall i | 0 <= i < n :: At(a, es[i].entity) == At(b, es[i].entity)
    ensures StoreAll(view, a, es, n) == StoreAll(view, b, es, n)
  {
    if n > 0 { SameMemory(view, a, b, es, n - 1); }
  }

  lemma FaithfulLater(w: World, later: World, e: Entry)
    requires Faithful(w, e) && At(later.mem, e.entity) == At(w.mem, e.entity)
    requires ViewAt(Seen(later.rows), RowKey(w.mem, e.entity)) == ViewAt(Seen(w.rows), RowKey(w.mem, e.entity))
    ensures Faithful(later, e)
  {
    assert RowKey(w.mem, e.entity) in w.rows <==> RowKey(w.mem, e.entity) in Seen(w.rows);
    assert RowKey(w.mem, e.entity) in later.rows <==> RowKey(w.mem, e.entity) in Seen(later.rows);
  }

  /** A statement writes to its own entity only. */
  lemma OthersInMemory(w: World, e: Entry, refuse: set<Ptr>, p: Ptr)
    requires Statement(w, e, refuse).Some? && p != e.entity
    ensures At(Statement(w, e, refuse).value.mem, p) == At(w.mem, p)
  {
  }

  lemma SeparateStep(all: seq<Entry>, w: World, i: nat, refuse: set<Ptr>)
    requires OneEach(all) && Separate(all, w) && i < |all| && Statement(w, all[i], refuse).Some?
    requires all[i].state.Added? && !all[i].entity.meta.appAssigned ==> At(w.mem, all[i].entity).key == 0
    ensures Separate(all, Statement(w, all[i], refuse).value)
  {
    var next := Statement(w, all[i], refuse).value;
    forall j | 0 <= j < |all| && j != i ensures At(next.mem, all[j].entity) == At(w.mem, all[j].entity) {
      OthersInMemory(w, all[i], refuse, all[j].entity);
    }
    KeyAfter(w, all[i], refuse);
    hide Statement;
    forall a, b, k | 0 <= a < b < |all| && Owns(next.mem, all[a], k) ensures !Owns(next.mem, all[b], k) {
      var other := if a == i then b else a;
      assert At(w.mem, all[other].entity).key < w.nextKey || all[other].entity.meta.appAssigned;
      assert !Owns(w.mem, all[a], k) || !Owns(w.mem, all[b], k);
    }
  }

  /** A statement leaves a key that is set; an insert of a generated key takes the next one. */
  lemma KeyAfter(w: World, e: Entry, refuse: set<Ptr>)
    requires Statement(w, e, refuse).Some?
    requires e.state.Added? && !e.entity.meta.appAssigned ==> At(w.mem, e.entity).key == 0
    ensures var next := Statement(w, e, refuse).value;
            if e.state.Added? && !e.entity.meta.appAssigned then At(next.mem, e.entity).key == w.nextKey && next.nextKey == w.nextKey + 1
            else At(next.mem, e.entity).key == At(w.mem, e.entity).key && next.nextKey == w.nextKey
  {
  }

  /** Every pending entry is Faithful, not emitted yet, and one of the tracked ones. */
  ghost predicate Workable(all: seq<Entry>, w: World, work: seq<Entry>) {
    OneEach(work) && forall e | e in work :: e in all && Faithful(w, e) && !e.flushed && !e.state.Unchanged?
  }

  ghost predicate RunSoFar(all: seq<Entry>, w: World, work: seq<Entry>, n: nat, now: World)
    requires n <= |work|
  {
    && Separate(all, now)
    && Seen(now.rows) == StoreAll(Seen(w.rows), now.mem, work, n)
    && (forall i | 0 <= i < n :: KeyOf(now.mem, work[i].entity).Some?)
    && (forall e | e in all && !(exists i | 0 <= i < n :: work[i] == e) :: At(now.mem, e.entity) == At(w.mem, e.entity))
  }

  lemma NextIsFaithful(all: seq<Entry>, w: World, work: seq<Entry>, n: nat, now: World)
    requires OneEach(all) && Workable(all, w, work) && n < |work| && RunSoFar(all, w, work, n, now)
    ensures Faithful(now, work[n])
  {
    var e := work[n];
    assert e in work && !(exists i | 0 <= i < n :: work[i] == e);
    var k := RowKey(w.mem, e.entity);
    if KeyOf(w.mem, e.entity).Some? {
      forall i | 0 <= i < n ensures !Owns(now.mem, work[i], k) {
        assert work[i] in work && work[i] != e;
        NotBoth(all, now, e, work[i], k);
      }
      NotOwned(Seen(w.rows), now.mem, work, n, k);
      FaithfulLater(w, now, e);
    }
  }

  lemma NotBoth(all: seq<Entry>, w: World, a: Entry, b: Entry, k: Key)
    requires Separate(all, w) && a in all && b in all && a != b && Owns(w.mem, a, k)
    ensures !Owns(w.mem, b, k)
  {
    var i :| 0 <= i < |all| && all[i] == a;
    var j :| 0 <= j < |all| && all[j] == b;
    var low, high := if i < j then i else j, if i < j then j else i;
    assert Owns(w.mem, all[low], k) ==> !Owns(w.mem, all[high], k);
  }

  lemma RunStepView(all: seq<Entry>, w: World, work: seq<Entry>, n: nat, now: World, refuse: set<Ptr>)
    requires OneEach(all) && Workable(all, w, work) && n < |work| && RunSoFar(all, w, work, n, now)
    requires Statement(now, work[n], refuse).Some?
    ensures var next := Statement(now, work[n], refuse).value;
            KeyOf(next.mem, work[n].entity).Some? && Seen(next.rows) == StoreAll(Seen(w.rows), next.mem, work, n + 1)
  {
    var e, next := work[n], Statement(now, work[n], refuse).value;
    NextIsFaithful(all, w, work, n, now);
    assert e in work;
    StatementStores(now, e, refuse);
    forall i | 0 <= i < n ensures At(next.mem, work[i].entity) == At(now.mem, work[i].entity) {
      OthersInMemory(now, e, refuse, work[i].entity);
    }
    hide Statement, StoreOne, Seen, Faithful, Separate;
    SameMemory(Seen(w.rows), now.mem, next.mem, work, n);
  }

  lemma RunStepOthers(all: seq<Entry>, w: World, work: seq<Entry>, n: nat, now: World, refuse: set<Ptr>)
    requires OneEach(all) && Workable(all, w, work) && n < |work| && RunSoFar(all, w, work, n, now)
    requires Statement(now, work[n], refuse).Some?
    ensures var next := Statement(now, work[n], refuse).value;
            && (forall i | 0 <= i < n :: KeyOf(next.mem, work[i].entity).Some?)
            && forall x | x in all && !(exists i | 0 <= i < n + 1 :: work[i] == x) :: At(next.mem, x.entity) == At(w.mem, x.entity)
  {
    var e, next := work[n], Statement(now, work[n], refuse).value;
    assert e in work;
    forall p | p != e.entity ensures At(next.mem, p) == At(now.mem, p) { OthersInMemory(now, e, refuse, p); }
    hide Statement, StoreAll, Seen, Faithful, Separate;
    forall i | 0 <= i < n ensures work[i].entity != e.entity { }
    forall x | x in all && !(exists i | 0 <= i < n + 1 :: work[i] == x) ensures At(next.mem, x.entity) == At(w.mem, x.entity) {
      assert work[n] != x;
      assert x.entity != e.entity by { Unshared(all, x, e); }
    }
  }

  lemma FaithfulInsert(w: World, e: Entry)
    requires Faithful(w, e) && !e.flushed
    ensures e.state.Added? && !e.entity.meta.appAssigned ==> At(w.mem, e.entity).key == 0
  {
  }

  lemma RunStep(all: seq<Entry>, w: World, work: seq<Entry>, n: nat, now: World, refuse: set<Ptr>)
    requires OneEach(all) && Workable(all, w, work) && n < |work| && RunSoFar(all, w, work, n, now)
    requires Statement(now, work[n], refuse).Some?
    ensures RunSoFar(all, w, work, n + 1, Statement(now, work[n], refuse).value)
  {
    hide Statement, StoreAll, Seen, Separate, OneEach, KeyOf, Faithful;
    RunStepView(all, w, work, n, now, refuse);
    RunStepOthers(all, w, work, n, now, refuse);
    NextIsFaithful(all, w, work, n, now);
    assert work[n] in work;
    var at :| 0 <= at < |all| && all[at] == work[n];
    FaithfulInsert(now, work[n]);
    SeparateStep(all, now, at, refuse);
  }

  lemma {:induction false} RunStores(all: seq<Entry>, w: World, work: seq<Entry>, n: nat, refuse: set<Ptr>)
    requires OneEach(all) && Separate(all, w) && Workable(all, w, work) && n <= |work|
    requires RunList(w, work, n, refuse).ok
    ensures RunSoFar(all, w, work, n, RunList(w, work, n, refuse).world)
  {
    if n == 0 {
      RunStart(all, w, work);
    } else {
      hide RunSoFar, Statement, Workable, OneEach, Separate;
      RunStores(all, w, work, n - 1, refuse);
      RunStep(all, w, work, n - 1, RunList(w, work, n - 1, refuse).world, refuse);
    }
  }

  lemma RunStart(all: seq<Entry>, w: World, work: seq<Entry>)
    requires Separate(all, w)
    ensures RunSoFar(all, w, work, 0, w)
  {
    hide Separate, Seen;
  }

  // ---- The theorem --------------------------------------------------------------------------

  /** What no statement was sent for is already stored: a flushed entity, or one whose diff is empty. */
  lemma AlreadyStored(w: World, e: Entry, later: Memory)
    requires Faithful(w, e) && At(later, e.entity) == At(w.mem, e.entity)
    requires (e.flushed || e.state.Unchanged?) && !IsDirty(w.mem, e)
    ensures StoreOne(Seen(w.rows), later, e) == Seen(w.rows)
  {
    var k := RowKey(w.mem, e.entity);
    if e.state.Unchanged? { DiffRestores(At(w.mem, e.entity).fields, w.rows[k].fields); }
  }

  lemma DetectedFaithful(t: Contents, w: World)
    requires Comparable(t.entries, w)
    ensures Comparable(AfterDetect(t, w.mem).entries, w)
  {
    var found := AfterDetect(t, w.mem).entries;
    forall i | 0 <= i < |found| ensures found[i].entity == t.entries[i].entity && Faithful(w, found[i]) {
      assert Faithful(w, t.entries[i]);
    }
  }

  lemma {:induction false} DetectionStoresAlike(view: View, mem: Memory, t: Contents, at: Memory, n: nat)
    requires n <= |t.entries|
    ensures StoreAll(view, mem, AfterDetect(t, at).entries, n) == StoreAll(view, mem, t.entries, n)
  {
    if n > 0 { DetectionStoresAlike(view, mem, t, at, n - 1); }
  }

  lemma SameAtEveryKey(a: View, b: View)
    requires forall k: Key :: ViewAt(a, k) == ViewAt(b, k)
    ensures a == b
  {
    forall k: Key ensures k in a <==> k in b { assert ViewAt(a, k) == ViewAt(b, k); }
    forall k | k in a ensures a[k] == b[k] { assert ViewAt(a, k) == ViewAt(b, k); }
  }

  lemma StoredIfEmitted(found: seq<Entry>, w: World, now: World, k: Key, i: nat)
    requires Comparable(found, w) && RunSoFar(found, w, Work(found), |Work(found)|, now)
    requires i < |found| && Owns(now.mem, found[i], k) && found[i] in Work(found)
    ensures ViewAt(Seen(now.rows), k) == ViewAt(StoreOne(Seen(w.rows), now.mem, found[i]), k)
  {
    var e, work := found[i], Work(found);
    WorkOnce(found);
    hide StoreOne, StoreAll, ViewAt, Seen, Work, Faithful, KeyOf;
    var j :| 0 <= j < |work| && work[j] == e;
    forall x | 0 <= x < |work| && x != j ensures !Owns(now.mem, work[x], k) {
      assert work[x] in work && work[x] in found;
      NotBoth(found, now, e, work[x], k);
    }
    OwnedOnce(Seen(w.rows), now.mem, work, |work|, j, k);
  }

  lemma StoredIfSkipped(found: seq<Entry>, w: World, now: World, k: Key, i: nat)
    requires Comparable(found, w) && RunSoFar(found, w, Work(found), |Work(found)|, now)
    requires i < |found| && Owns(now.mem, found[i], k) && found[i] !in Work(found) && !IsDirty(w.mem, found[i])
    ensures ViewAt(Seen(now.rows), k) == ViewAt(StoreOne(Seen(w.rows), now.mem, found[i]), k)
  {
    var e, work := found[i], Work(found);
    WorkOnce(found);
    hide StoreOne, StoreAll, ViewAt, Seen, Work, Faithful, KeyOf, IsDirty;
    forall x | 0 <= x < |work| ensures !Owns(now.mem, work[x], k) {
      assert work[x] in work && work[x] in found;
      NotBoth(found, now, e, work[x], k);
    }
    NotOwned(Seen(w.rows), now.mem, work, |work|, k);
    AlreadyStored(w, e, now.mem);
  }

  lemma StoredAt(found: seq<Entry>, w: World, now: World, k: Key)
    requires Comparable(found, w) && RunSoFar(found, w, Work(found), |Work(found)|, now)
    requires forall i | 0 <= i < |found| :: !IsDirty(w.mem, found[i])
    ensures ViewAt(Seen(now.rows), k) == ViewAt(StoreAll(Seen(w.rows), now.mem, found, |found|), k)
  {
    var work := Work(found);
    WorkOnce(found);
    hide StoreOne, StoreAll, ViewAt, Seen, Work, Faithful, IsDirty, KeyOf;
    if i :| 0 <= i < |found| && Owns(now.mem, found[i], k) {
      if found[i] in work { StoredIfEmitted(found, w, now, k, i); } else { StoredIfSkipped(found, w, now, k, i); }
      forall j | 0 <= j < |found| && j != i ensures !Owns(now.mem, found[j], k) {
        assert found[j] != found[i];
        NotBoth(found, now, found[i], found[j], k);
      }
      OwnedOnce(Seen(w.rows), now.mem, found, |found|, i, k);
    } else {
      forall x | 0 <= x < |work| ensures !Owns(now.mem, work[x], k) {
        assert work[x] in work && work[x] in found;
      }
      NotOwned(Seen(w.rows), now.mem, work, |work|, k);
      NotOwned(Seen(w.rows), now.mem, found, |found|, k);
    }
  }

  /**
   * A flush that succeeds leaves exactly the user columns and the deletions that storing every tracked entity in full
   * leaves, while it writes only changed columns and skips what is clean or already emitted.
   */
  lemma FlushIsAFullWrite(t: Contents, w: World, refuse: set<Ptr>)
    requires Comparable(t.entries, w) && FlushAll(t, w, refuse).ok
    ensures var now := FlushAll(t, w, refuse).world;
            Seen(now.rows) == StoreAll(Seen(w.rows), now.mem, t.entries, |t.entries|)
  {
    var found, now := AfterDetect(t, w.mem).entries, FlushAll(t, w, refuse).world;
    DetectedFaithful(t, w);
    WorkOnce(found);
    RunStores(found, w, Work(found), |Work(found)|, refuse);
    forall i | 0 <= i < |found| ensures !IsDirty(w.mem, found[i]) { }
    DetectionStoresAlike(Seen(w.rows), now.mem, t, w.mem, |found|);
    hide StoreOne, StoreAll, ViewAt, Seen, Work, Faithful, IsDirty, RunSoFar, Comparable, AfterDetect;
    forall k ensures ViewAt(Seen(now.rows), k) == ViewAt(StoreAll(Seen(w.rows), now.mem, found, |found|), k) {
      StoredAt(found, w, now, k);
    }
    SameAtEveryKey(Seen(now.rows), StoreAll(Seen(w.rows), now.mem, found, |found|));
  }

  lemma MarkedFaithful(w: World, now: World, e: Entry)
    requires Faithful(w, e) && !IsDirty(w.mem, e) && KeyOf(now.mem, e.entity).Some?
    requires At(now.mem, e.entity).fields == At(w.mem, e.entity).fields
    requires e.flushed || e.state.Unchanged? ==> At(now.mem, e.entity) == At(w.mem, e.entity)
    requires var k := RowKey(now.mem, e.entity); ViewAt(Seen(now.rows), k) == ViewAt(StoreOne(Seen(w.rows), now.mem, e), k)
    ensures Faithful(now, Marked(e))
  {
    var k := RowKey(now.mem, e.entity);
    assert k in now.rows <==> k in Seen(now.rows);
    assert k in w.rows <==> k in Seen(w.rows);
    if e.flushed || e.state.Unchanged? { AlreadyStored(w, e, now.mem); }
  }

  lemma StillFaithful(t: Contents, w: World, refuse: set<Ptr>, i: nat)
    requires Comparable(t.entries, w) && FlushAll(t, w, refuse).ok && i < |t.entries|
    ensures Faithful(FlushAll(t, w, refuse).world, FlushAll(t, w, refuse).tracked.entries[i])
    ensures Separate(AfterDetect(t, w.mem).entries, FlushAll(t, w, refuse).world)
  {
    var found, now := AfterDetect(t, w.mem).entries, FlushAll(t, w, refuse).world;
    var e := found[i];
    var work := Work(found);
    DetectedFaithful(t, w);
    WorkOnce(found);
    RunStores(found, w, work, |work|, refuse);
    RunKeepsValues(w, work, |work|, refuse);
    FlushIsAFullWrite(t, w, refuse);
    DetectionStoresAlike(Seen(w.rows), now.mem, t, w.mem, |found|);
    assert e in found && !IsDirty(w.mem, e);
    hide StoreOne, StoreAll, ViewAt, Seen, Work, Faithful, IsDirty, KeyOf, AfterDetect, Separate;
    KeyIsSet(found, w, work, now, e);
    var k := RowKey(now.mem, e.entity);
    assert Owns(now.mem, e, k) by { KeyOwned(now.mem, e); }
    forall j | 0 <= j < |found| && j != i ensures !Owns(now.mem, found[j], k) {
      assert found[j] != e;
      NotBoth(found, now, e, found[j], k);
    }
    OwnedOnce(Seen(w.rows), now.mem, found, |found|, i, k);
    MarkedFaithful(w, now, e);
  }

  lemma KeyOwned(mem: Memory, e: Entry)
    requires KeyOf(mem, e.entity).Some?
    ensures Owns(mem, e, RowKey(mem, e.entity))
  {
  }

  lemma KeyIsSet(found: seq<Entry>, w: World, work: seq<Entry>, now: World, e: Entry)
    requires OneEach(found) && work == Work(found) && RunSoFar(found, w, work, |work|, now) && e in found && Faithful(w, e)
    ensures KeyOf(now.mem, e.entity).Some?
    ensures e.flushed || e.state.Unchanged? ==> At(now.mem, e.entity) == At(w.mem, e.entity)
  {
    WorkOnce(found);
    if j :| 0 <= j < |work| && work[j] == e {
      assert e in work;
    }
  }

  /** After a flush the two may be compared again, so any number of flushes in one transaction is a full write. */
  lemma StaysComparable(t: Contents, w: World, refuse: set<Ptr>)
    requires Comparable(t.entries, w) && FlushAll(t, w, refuse).ok
    ensures Comparable(FlushAll(t, w, refuse).tracked.entries, FlushAll(t, w, refuse).world)
  {
    var after := FlushAll(t, w, refuse);
    var found := AfterDetect(t, w.mem).entries;
    assert |after.tracked.entries| == |found| == |t.entries|;
    forall i | 0 <= i < |found| ensures after.tracked.entries[i].entity == found[i].entity == t.entries[i].entity { }
    hide FlushAll, AfterDetect, Faithful, Separate, Detected;
    forall i | 0 <= i < |found| ensures Faithful(after.world, after.tracked.entries[i]) && Separate(found, after.world) {
      StillFaithful(t, w, refuse, i);
    }
    if |found| > 0 {
      assert Separate(found, after.world);
      SameEntities(found, after.tracked.entries, after.world);
    } else {
      NothingTracked(t, w, refuse);
    }
  }

  lemma SameEntities(a: seq<Entry>, b: seq<Entry>, w: World)
    requires |a| == |b| && Separate(a, w) && forall i | 0 <= i < |a| :: a[i].entity == b[i].entity
    ensures Separate(b, w)
  {
    forall i, k | 0 <= i < |a| ensures Owns(w.mem, b[i], k) == Owns(w.mem, a[i], k) { }
    forall i, j, k | 0 <= i < j < |b| && Owns(w.mem, b[i], k) ensures !Owns(w.mem, b[j], k) {
      assert Owns(w.mem, a[i], k);
    }
  }

  lemma NothingTracked(t: Contents, w: World, refuse: set<Ptr>)
    requires Comparable(t.entries, w) && t.entries == []
    ensures Comparable(FlushAll(t, w, refuse).tracked.entries, FlushAll(t, w, refuse).world)
  {
    var found := AfterDetect(t, w.mem).entries;
    NoWork(found);
    assert found == [] && FlushAll(t, w, refuse).world == w && FlushAll(t, w, refuse).tracked.entries == [];
  }
}
