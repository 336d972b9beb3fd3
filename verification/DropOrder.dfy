/** The order of dropped tables. */
module DropOrder {
  // The order in which dropped tables leave, so that none goes while a table still standing references it.

  /** A table and the tables its columns reference; the empty name is no reference. */
  datatype Table = Table(name: string, refs: seq<string>)

  predicate References(a: Table, b: Table) { a.name != b.name && b.name in a.refs }

  predicate DistinctNames(ts: seq<Table>) { forall i, j | 0 <= i < j < |ts| :: ts[i].name != ts[j].name }

  /** No table is dropped while a later one still references it. */
  predicate Safe(order: seq<Table>) { forall i, j | 0 <= i < j < |order| :: !References(order[j], order[i]) }

  function Dropped(tables: seq<Table>, keep: set<string>): seq<Table> {
    if tables == [] then []
    else (if tables[0].name in keep then [] else [tables[0]]) + Dropped(tables[1..], keep)
  }

  predicate SafeOrderOf(order: seq<Table>, ts: seq<Table>) { multiset(order) == multiset(ts) && Safe(order) }

  /** Tables of the list that have not been emitted. */
  predicate Pending(ts: seq<Table>, emitted: set<string>, t: Table) { t in ts && t.name !in emitted }

  /** Every pending table is referenced by another pending one. */
  ghost predicate Stuck(ts: seq<Table>, emitted: set<string>) {
    forall t | Pending(ts, emitted, t) :: exists o | Pending(ts, emitted, o) :: References(o, t)
  }

  lemma {:induction false} DroppedDistinct(tables: seq<Table>, keep: set<string>)
    requires DistinctNames(tables)
    ensures DistinctNames(Dropped(tables, keep))
    ensures forall t :: t in Dropped(tables, keep) <==> t in tables && t.name !in keep
  {
    if tables != [] {
      DroppedDistinct(tables[1..], keep);
      forall t | t in Dropped(tables[1..], keep) ensures t.name != tables[0].name {
        var i :| 0 <= i < |tables[1..]| && tables[1..][i] == t;
        assert tables[i + 1] == t;
      }
    }
  }

  /** In a safe order the first table still pending is referenced by no other pending table. */
  lemma {:induction false} FirstPendingIsFree(order: seq<Table>, ts: seq<Table>, emitted: set<string>, n: nat, k: nat)
    requires SafeOrderOf(order, ts) && n <= k < |order| && order[k].name !in emitted
    requires forall i | 0 <= i < n :: order[i].name in emitted
    ensures !Stuck(ts, emitted)
    decreases |order| - n
  {
    if order[n].name in emitted {
      FirstPendingIsFree(order, ts, emitted, n + 1, k);
    } else {
      SameTables(order, ts, order[n]);
      forall o | Pending(ts, emitted, o) ensures !References(o, order[n]) {
        SameTables(order, ts, o);
        var j :| 0 <= j < |order| && order[j] == o;
      }
      assert Pending(ts, emitted, order[n]);
    }
  }

  lemma SameTables(a: seq<Table>, b: seq<Table>, t: Table)
    requires multiset(a) == multiset(b)
    ensures t in a <==> t in b
  {
    assert t in a <==> t in multiset(a);
    assert t in b <==> t in multiset(b);
  }

  lemma StuckHasNoOrder(ts: seq<Table>, emitted: set<string>, t: Table, order: seq<Table>)
    requires Stuck(ts, emitted) && Pending(ts, emitted, t)
    ensures !SafeOrderOf(order, ts)
  {
    hide Stuck;
    if SafeOrderOf(order, ts) {
      SameTables(order, ts, t);
      var k :| 0 <= k < |order| && order[k] == t;
      FirstPendingIsFree(order, ts, emitted, 0, k);
    }
  }

  /** What is ordered so far: each emitted table once, in a safe order, and none of them referenced by a pending table. */
  ghost predicate Emitted(ts: seq<Table>, emitted: set<string>, ordered: seq<Table>) {
    && (forall t | t in ordered :: t in ts && t.name in emitted)
    && (forall t | t in ts && t.name in emitted :: t in ordered)
    && DistinctNames(ordered)
  }

  ghost predicate Free(ts: seq<Table>, emitted: set<string>, ordered: seq<Table>) {
    Safe(ordered) && forall i, o | 0 <= i < |ordered| && Pending(ts, emitted, o) :: !References(o, ordered[i])
  }

  lemma EmitOne(ts: seq<Table>, emitted: set<string>, ordered: seq<Table>, t: Table)
    requires DistinctNames(ts) && Emitted(ts, emitted, ordered) && Pending(ts, emitted, t)
    ensures Emitted(ts, emitted + {t.name}, ordered + [t])
  {
    var more := ordered + [t];
    forall i | 0 <= i < |ordered| ensures ordered[i].name != t.name { assert ordered[i] in ordered; }
    forall x | x in ts && x.name in emitted + {t.name} ensures x in more {
      if x.name == t.name { OneOfAName(ts, x, t); }
      assert more[|ordered|] == t;
    }
  }

  lemma StaysFree(ts: seq<Table>, emitted: set<string>, ordered: seq<Table>, t: Table)
    requires Free(ts, emitted, ordered) && Pending(ts, emitted, t) && forall o | Pending(ts, emitted, o) :: !References(o, t)
    ensures Free(ts, emitted + {t.name}, ordered + [t])
  {
    var more := ordered + [t];
    forall i, j | 0 <= i < j < |more| ensures !References(more[j], more[i]) {
      if j < |ordered| { assert !References(ordered[j], ordered[i]); } else { assert !References(t, ordered[i]); }
    }
    forall i, o | 0 <= i < |more| && Pending(ts, emitted + {t.name}, o) ensures !References(o, more[i]) {
      assert Pending(ts, emitted, o);
    }
  }

  lemma OneOfAName(ts: seq<Table>, a: Table, b: Table)
    requires DistinctNames(ts) && a in ts && b in ts && a.name == b.name
    ensures a == b
  {
  }

  /** Distinct names make equal contents a permutation. */
  lemma {:induction false} AllEmitted(ts: seq<Table>, ordered: seq<Table>)
    requires DistinctNames(ts) && DistinctNames(ordered) && forall t :: t in ts <==> t in ordered
    ensures multiset(ts) == multiset(ordered)
  {
    forall t ensures multiset(ts)[t] == multiset(ordered)[t] {
      Multiplicity(ts, t);
      Multiplicity(ordered, t);
    }
  }

  lemma {:induction false} Multiplicity(ts: seq<Table>, t: Table)
    requires DistinctNames(ts)
    ensures multiset(ts)[t] == if t in ts then 1 else 0
    decreases |ts|
  {
    if ts != [] {
      assert ts == [ts[0]] + ts[1..];
      Multiplicity(ts[1..], t);
      forall i | 0 <= i < |ts[1..]| ensures ts[1..][i] != ts[0] { assert ts[1..][i] == ts[i + 1]; }
    }
  }

  lemma NonePending(ts: seq<Table>, emitted: set<string>, ordered: seq<Table>)
    requires DistinctNames(ts) && Emitted(ts, emitted, ordered)
    ensures (forall t :: !Pending(ts, emitted, t)) ==> |ordered| == |ts|
  {
    if forall t :: !Pending(ts, emitted, t) {
      forall t ensures t in ts <==> t in ordered { assert !Pending(ts, emitted, t); }
      AllEmitted(ts, ordered);
      assert |multiset(ts)| == |ts| && |multiset(ordered)| == |ordered|;
    }
  }

  lemma Complete(ts: seq<Table>, emitted: set<string>, ordered: seq<Table>)
    requires DistinctNames(ts) && Emitted(ts, emitted, ordered) && |ordered| >= |ts|
    ensures multiset(ordered) == multiset(ts)
  {
    var a, b := multiset(ordered), multiset(ts);
    forall t ensures a[t] <= b[t] {
      Multiplicity(ts, t);
      Multiplicity(ordered, t);
    }
    assert b == a + (b - a);
    assert |b| == |ts| && |a| == |ordered|;
    assert |b - a| == 0;
  }

  method ReferencedByPending(ts: seq<Table>, emitted: set<string>, t: Table) returns (referenced: bool)
    ensures referenced <==> exists o | Pending(ts, emitted, o) :: References(o, t)
  {
    referenced := false;
    for i := 0 to |ts|
      invariant !referenced && forall j | 0 <= j < i && ts[j].name !in emitted :: !References(ts[j], t)
    {
      var other := ts[i];
      if other.name !in emitted && other.name != t.name {
        var c := 0;
        while c < |other.refs| && other.refs[c] != t.name
          invariant 0 <= c <= |other.refs| && t.name !in other.refs[..c]
        {
          c := c + 1;
        }
        if c < |other.refs| {
          assert other.refs[c] in other.refs;
          assert Pending(ts, emitted, other) && References(other, t);
          return true;
        }
        assert other.refs[..c] == other.refs;
      }
    }
  }

  /** Some order of the tables is safe: their references have no cycle but self-references. */
  ghost predicate Orderable(ts: seq<Table>) { exists order :: SafeOrderOf(order, ts) }

  lemma StuckIsNotOrderable(ts: seq<Table>, emitted: set<string>, t: Table, rest: seq<Table>)
    requires Stuck(ts, emitted) && Pending(ts, emitted, t)
    ensures !Orderable(ts) && !SafeOrderOf(rest, ts)
  {
    hide Stuck, Pending;
    forall order ensures !SafeOrderOf(order, ts) { StuckHasNoOrder(ts, emitted, t, order); }
  }

  lemma FreeIsOrdered(ts: seq<Table>, emitted: set<string>, ordered: seq<Table>)
    requires DistinctNames(ts) && Emitted(ts, emitted, ordered) && Free(ts, emitted, ordered) && |ordered| >= |ts|
    ensures SafeOrderOf(ordered, ts) && Orderable(ts) && multiset(ordered) == multiset(ts)
  {
    Complete(ts, emitted, ordered);
    hide Emitted, DistinctNames, Safe;
  }

  /**
   * The drop order is a permutation of the dropped tables, and a safe one exactly when any safe order of them exists at all.
   */
  method FkSafeDropOrder(tables: seq<Table>, keep: set<string>) returns (ordered: seq<Table>)
    requires DistinctNames(tables)
    ensures multiset(ordered) == multiset(Dropped(tables, keep))
    ensures SafeOrderOf(ordered, Dropped(tables, keep)) <==> Orderable(Dropped(tables, keep))
  {
    var toSort := Dropped(tables, keep);
    DroppedDistinct(tables, keep);
    hide *;
    var emitted: set<string> := {};
    ordered := [];
    NothingEmitted(toSort);
    while |ordered| < |toSort|
      invariant Emitted(toSort, emitted, ordered) && Free(toSort, emitted, ordered)
      decreases |toSort| - |ordered|
    {
      var progress;
      ordered, emitted, progress := Pass(toSort, emitted, ordered);
      if !progress {
        ordered := GiveUp(toSort, emitted, ordered);
        return;
      }
    }
    FreeIsOrdered(toSort, emitted, ordered);
  }

  lemma NothingEmitted(ts: seq<Table>)
    ensures Emitted(ts, {}, []) && Free(ts, {}, [])
  {
  }

  method GiveUp(ts: seq<Table>, emitted: set<string>, ordered0: seq<Table>) returns (ordered: seq<Table>)
    requires DistinctNames(ts) && Emitted(ts, emitted, ordered0) && |ordered0| < |ts| && Stuck(ts, emitted)
    ensures multiset(ordered) == multiset(ts) && !Orderable(ts) && !SafeOrderOf(ordered, ts)
  {
    hide *;
    ghost var t := SomePending(ts, emitted, ordered0);
    ordered := EmitRest(ts, emitted, ordered0);
    StuckIsNotOrderable(ts, emitted, t, ordered);
  }

  lemma SomePending(ts: seq<Table>, emitted: set<string>, ordered: seq<Table>) returns (t: Table)
    requires DistinctNames(ts) && Emitted(ts, emitted, ordered) && |ordered| < |ts|
    ensures Pending(ts, emitted, t)
  {
    NonePending(ts, emitted, ordered);
    t :| Pending(ts, emitted, t);
  }

  /** One pass over the tables, emitting each that nothing pending references. */
  method Pass(ts: seq<Table>, emitted0: set<string>, ordered0: seq<Table>)
    returns (ordered: seq<Table>, emitted: set<string>, progress: bool)
    requires DistinctNames(ts) && Emitted(ts, emitted0, ordered0) && Free(ts, emitted0, ordered0)
    ensures Emitted(ts, emitted, ordered) && Free(ts, emitted, ordered)
    ensures if progress then |ordered| > |ordered0| else ordered == ordered0 && emitted == emitted0 && Stuck(ts, emitted)
  {
    ordered, emitted, progress := ordered0, emitted0, false;
    for i := 0 to |ts|
      invariant Emitted(ts, emitted, ordered) && Free(ts, emitted, ordered)
      invariant if progress then |ordered| > |ordered0| else ordered == ordered0 && emitted == emitted0
      invariant !progress ==> forall j | 0 <= j < i && ts[j].name !in emitted :: exists o | Pending(ts, emitted, o) :: References(o, ts[j])
    {
      if ts[i].name !in emitted {
        var referenced := ReferencedByPending(ts, emitted, ts[i]);
        if !referenced {
          EmitOne(ts, emitted, ordered, ts[i]);
          StaysFree(ts, emitted, ordered, ts[i]);
          emitted, ordered, progress := emitted + {ts[i].name}, ordered + [ts[i]], true;
        }
      }
    }
  }

  /** A cycle: the rest in their original order. */
  method EmitRest(ts: seq<Table>, emitted0: set<string>, ordered0: seq<Table>) returns (ordered: seq<Table>)
    requires DistinctNames(ts) && Emitted(ts, emitted0, ordered0)
    ensures multiset(ordered) == multiset(ts)
  {
    ordered := ordered0;
    var emitted := emitted0;
    for i := 0 to |ts|
      invariant Emitted(ts, emitted, ordered) && forall j | 0 <= j < i :: ts[j].name in emitted
    {
      if ts[i].name !in emitted {
        EmitOne(ts, emitted, ordered, ts[i]);
        emitted, ordered := emitted + {ts[i].name}, ordered + [ts[i]];
      }
    }
    AllEmitted(ts, ordered);
  }
}
