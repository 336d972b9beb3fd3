/** The down list of a Postgres diff: emitted in step with up, then reversed, and what it undoes. */
module PgDown {
  import opened Options
  import opened OrderedSeqs
  import opened Schema
  import opened Renames
  import opened PgReplay

  // ---- What is emitted ----------------------------------------------------------------------

  function DownRenames(renames: seq<Rename>): (ss: seq<Step>)
    ensures |ss| == |renames| && forall i | 0 <= i < |ss| :: ss[i] == RenameCol(renames[i].becomes, renames[i].was)
  {
    seq(|renames|, i requires 0 <= i < |renames| => RenameCol(renames[i].becomes, renames[i].was))
  }

  function DownAdds(before: Table, after: Table, renames: seq<Rename>, n: nat): seq<Step>
    requires n <= |after.columns|
  {
    if n == 0 then []
    else
      var c := after.columns[n - 1];
      DownAdds(before, after, renames, n - 1) + if OldShape(before.columns, renames, c.name).None? then [DropCol(c.name)] else []
  }

  function DownDrops(before: Table, after: Table, renames: seq<Rename>, n: nat): seq<Step>
    requires n <= |before.columns|
  {
    if n == 0 then []
    else
      var c := before.columns[n - 1];
      DownDrops(before, after, renames, n - 1) + if !Declares(after.columns, Lookup(renames, c.name)) then [AddCol(c.name, ShapeOf(c))] else []
  }

  /** The name the old column had that a name stands for now. */
  function OldName(columns: seq<Column>, renames: seq<Rename>, name: string): string {
    if columns == [] then name
    else if Lookup(renames, columns[0].name) == name then columns[0].name
    else OldName(columns[1..], renames, name)
  }

  /** The default goes back under the column's old name. */
  function UnalterSteps(name: string, oldName: string, n: Shape, o: Shape): seq<Step> {
    TypeStep(name, n, o) + NullStep(name, n, o) + DefaultStep(oldName, n, o)
  }

  function DownAlters(before: Table, after: Table, renames: seq<Rename>, n: nat): seq<Step>
    requires n <= |after.columns|
  {
    if n == 0 then []
    else
      var c := after.columns[n - 1];
      var o := OldShape(before.columns, renames, c.name);
      DownAlters(before, after, renames, n - 1)
      + if o.Some? then UnalterSteps(c.name, OldName(before.columns, renames, c.name), ShapeOf(c), o.value) else []
  }

  /** What undoes one new or changed index; an index that changed is put back before the new one is dropped, to be reversed. */
  function DownIndex(olds: map<string, Index>, x: Index): seq<Step> {
    if x.name !in olds then [DropIndex(x.name)] else if olds[x.name] != x then [MakeIndex(olds[x.name]), DropIndex(x.name)] else []
  }

  function DownNewIndexes(before: Table, after: Table, n: nat): seq<Step>
    requires n <= |after.indexes|
  {
    if n == 0 then [] else DownNewIndexes(before, after, n - 1) + DownIndex(IndexMap(before.indexes), after.indexes[n - 1])
  }

  function DownOldIndexes(before: Table, after: Table, n: nat): seq<Step>
    requires n <= |before.indexes|
  {
    if n == 0 then []
    else
      var x := before.indexes[n - 1];
      DownOldIndexes(before, after, n - 1) + if x.name !in IndexMap(after.indexes) then [MakeIndex(x)] else []
  }

  /** The down statements as they are emitted, in step with the up list. */
  function DownElements(before: Table, after: Table, renames: seq<Rename>): seq<Step> {
    DownRenames(renames) + DownAdds(before, after, renames, |after.columns|) + DownDrops(before, after, renames, |before.columns|)
    + DownAlters(before, after, renames, |after.columns|)
    + DownNewIndexes(before, after, |after.indexes|) + DownOldIndexes(before, after, |before.indexes|)
  }

  function DownList(before: Table, after: Table, renames: seq<Rename>): seq<Step> { Reverse(DownElements(before, after, renames)) }

  // ---- Undoing, the last first --------------------------------------------------------------

  /** The index can be made over the columns of the table: they are all there, and it reads as they are typed. */
  predicate Remakes(x: Index, after: Table) { Fits(PgOf(after), x) && Legible(x, ShapeMap(after.columns)) }

  /** The i-th old index stands in the new table as it was, or it can be made over the new table's columns. */
  predicate RemakesAt(before: Table, after: Table, i: nat)
    requires i < |before.indexes|
  {
    Get(IndexMap(after.indexes), before.indexes[i].name) == Some(before.indexes[i]) || Remakes(before.indexes[i], after)
  }

  /** The first n old indexes that the new table has none in place of. */
  predicate OldsRemake(before: Table, after: Table, n: nat)
    requires n <= |before.indexes|
  {
    forall i | 0 <= i < n && before.indexes[i].name !in IndexMap(after.indexes) :: RemakesAt(before, after, i)
  }

  /** And those in place of which the first n new ones stand. */
  predicate PrevsRemake(before: Table, after: Table, n: nat)
    requires n <= |after.indexes|
  {
    forall i | 0 <= i < |before.indexes| && IndexAmong(after.indexes, n, before.indexes[i].name).Some? :: RemakesAt(before, after, i)
  }

  lemma {:induction false} UndoOldIndexes(t: PgTable, before: Table, after: Table, n: nat, others: set<string>) returns (r: Option<PgTable>)
    requires n <= |before.indexes| && DistinctIndexes(before.indexes) && NamesFree(before.indexes, others) && t.columns == ShapeMap(after.columns)
    requires forall i | 0 <= i < n && before.indexes[i].name !in IndexMap(after.indexes) :: before.indexes[i].name !in t.indexes
    ensures RunPg(t, Reverse(DownOldIndexes(before, after, n)), others) == r
    ensures (r.Some? <==> OldsRemake(before, after, n)) && (r.Some? ==> r.value.columns == t.columns)
    ensures r.Some? ==>
              forall name :: Get(r.value.indexes, name) ==
                if IndexAmong(before.indexes, n, name).Some? && name !in IndexMap(after.indexes) then IndexAmong(before.indexes, n, name) else Get(t.indexes, name)
    decreases n
  {
    hide RunPg, ExecutePg, IndexMap, Fits, Reverse, ShapeMap, Legible, Remakes;
    if n == 0 {
      r := Some(t);
      NothingRun(t, others);
    } else {
      var x := before.indexes[n - 1];
      if x.name !in IndexMap(after.indexes) {
        var m := t.(indexes := t.indexes[x.name := x]);
        MakeOne(t, x, others);
        RemakesIs(t, x, after);
        ReverseJoined(DownOldIndexes(before, after, n - 1), [MakeIndex(x)]);
        assert Reverse([MakeIndex(x)]) == [MakeIndex(x)];
        PgJoined(t, [MakeIndex(x)], Reverse(DownOldIndexes(before, after, n - 1)), others);
        assert RemakesAt(before, after, n - 1) <==> Remakes(x, after);
        if Remakes(x, after) {
          r := UndoOldIndexes(m, before, after, n - 1, others);
          NoIndexAmong(before.indexes, n - 1, n - 1);
        } else {
          r := None;
        }
      } else {
        r := UndoOldIndexes(t, before, after, n - 1, others);
        assert DownOldIndexes(before, after, n) == DownOldIndexes(before, after, n - 1);
      }
    }
  }

  lemma RemakesIs(t: PgTable, x: Index, after: Table)
    requires t.columns == ShapeMap(after.columns)
    ensures Remakes(x, after) <==> Fits(t, x) && Legible(x, t.columns)
  {
    hide ShapeMap, Legible, IndexMap;
  }

  lemma {:induction false} UndoNewIndexes(t: PgTable, before: Table, after: Table, n: nat, others: set<string>) returns (r: Option<PgTable>)
    requires n <= |after.indexes| && DistinctIndexes(after.indexes) && NamesFree(after.indexes, others) && NamesFree(before.indexes, others)
    requires DistinctIndexes(before.indexes) && t.columns == ShapeMap(after.columns)
    ensures RunPg(t, Reverse(DownNewIndexes(before, after, n)), others) == r
    ensures (r.Some? <==> PrevsRemake(before, after, n)) && (r.Some? ==> r.value.columns == t.columns)
    ensures r.Some? ==>
              forall name :: Get(r.value.indexes, name) ==
                if IndexAmong(after.indexes, n, name).Some? && IndexAmong(after.indexes, n, name) != Get(IndexMap(before.indexes), name)
                then Get(IndexMap(before.indexes), name) else Get(t.indexes, name)
    decreases n
  {
    hide RunPg, ExecutePg, IndexMap, Fits, Reverse, ShapeMap, Legible, RemakesAt;
    if n == 0 {
      r := Some(t);
      NothingRun(t, others);
    } else {
      var x, olds := after.indexes[n - 1], IndexMap(before.indexes);
      NoIndexAmong(after.indexes, n - 1, n - 1);
      ReverseJoined(DownNewIndexes(before, after, n - 1), DownIndex(olds, x));
      PgJoined(t, Reverse(DownIndex(olds, x)), Reverse(DownNewIndexes(before, after, n - 1)), others);
      r := UndoIndex(t, before, after, n - 1, others);
      PrevsNext(before, after, n);
      if r.Some? {
        r := UndoNewIndexes(r.value, before, after, n - 1, others);
      }
    }
  }

  lemma PrevsNext(before: Table, after: Table, n: nat)
    requires 0 < n <= |after.indexes|
    ensures PrevsRemake(before, after, n) <==> PrevsRemake(before, after, n - 1) && PrevRemakes(before, after, n - 1)
  {
    hide RemakesAt;
  }

  /** The old index in place of which the i-th new one stands can be made again. */
  predicate PrevRemakes(before: Table, after: Table, i: nat)
    requires i < |after.indexes|
  {
    forall k | 0 <= k < |before.indexes| && before.indexes[k].name == after.indexes[i].name :: RemakesAt(before, after, k)
  }

  lemma UndoIndex(t: PgTable, before: Table, after: Table, i: nat, others: set<string>) returns (m: Option<PgTable>)
    requires i < |after.indexes| && DistinctIndexes(after.indexes) && t.columns == ShapeMap(after.columns)
    requires NamesFree(after.indexes, others) && NamesFree(before.indexes, others) && DistinctIndexes(before.indexes)
    ensures RunPg(t, Reverse(DownIndex(IndexMap(before.indexes), after.indexes[i])), others) == m
    ensures (m.Some? <==> PrevRemakes(before, after, i)) && (m.Some? ==> m.value.columns == t.columns)
    ensures m.Some? ==>
              var x := after.indexes[i];
              forall name :: Get(m.value.indexes, name) ==
                if name == x.name && Get(IndexMap(before.indexes), name) != Some(x) then Get(IndexMap(before.indexes), name) else Get(t.indexes, name)
  {
    var x, olds := after.indexes[i], IndexMap(before.indexes);
    PrevDecides(before, after, i);
    PrevIs(before, x.name);
    hide RunPg, ExecutePg, Fits, IndexMap, Legible, ShapeMap, PrevRemakes, Reverse, Remakes;
    if x.name !in olds {
      var dropped := DropOneIndex(t, x.name, others);
      m := Some(dropped);
      OneReversed(DropIndex(x.name));
    } else if olds[x.name] != x {
      var prev := olds[x.name];
      RemakePrev(t, prev, others);
      RemakesIs(t, prev, after);
      m := if Remakes(prev, after) then Some(t.(indexes := t.indexes[prev.name := prev])) else None;
    } else {
      m := Some(t);
      NothingRun(t, others);
      NothingReversed<Step>();
    }
  }

  lemma OneReversed<T>(x: T)
    ensures Reverse([x]) == [x]
  {
  }

  lemma NothingReversed<T>()
    ensures Reverse<T>([]) == []
  {
  }

  /** Undone, a changed index is dropped and made again as it was. */
  lemma RemakePrev(t: PgTable, prev: Index, others: set<string>)
    requires prev.name !in others
    ensures RunPg(t, Reverse([MakeIndex(prev), DropIndex(prev.name)]), others) ==
            if Fits(t, prev) && Legible(prev, t.columns) then Some(t.(indexes := t.indexes[prev.name := prev])) else None
  {
    MakeOne(t, prev, others);
    assert Reverse([MakeIndex(prev), DropIndex(prev.name)]) == [DropIndex(prev.name), MakeIndex(prev)];
  }

  lemma PrevDecides(before: Table, after: Table, i: nat)
    requires i < |after.indexes| && DistinctIndexes(after.indexes) && DistinctIndexes(before.indexes)
    ensures var x := after.indexes[i]; var prev := Get(IndexMap(before.indexes), x.name);
            PrevRemakes(before, after, i) <==> prev.None? || prev == Some(x) || Remakes(prev.value, after)
  {
    NewIndexHere(after, i);
    PrevIs(before, after.indexes[i].name);
    hide IndexMap, Remakes;
  }

  lemma NewIndexHere(after: Table, i: nat)
    requires i < |after.indexes| && DistinctIndexes(after.indexes)
    ensures Get(IndexMap(after.indexes), after.indexes[i].name) == Some(after.indexes[i])
  {
    assert after.indexes[..|after.indexes|] == after.indexes;
    IndexMapGet(after.indexes, |after.indexes|, after.indexes[i].name);
    IndexAmongAt(after.indexes, |after.indexes|, i);
  }

  lemma {:induction false} IndexAmongAt(xs: seq<Index>, n: nat, i: nat)
    requires DistinctIndexes(xs) && i < n <= |xs|
    ensures IndexAmong(xs, n, xs[i].name) == Some(xs[i])
  {
    if i < n - 1 { IndexAmongAt(xs, n - 1, i); }
  }

  /** An old index by its name. */
  lemma PrevIs(before: Table, name: string)
    requires DistinctIndexes(before.indexes)
    ensures name in IndexMap(before.indexes) ==> IndexMap(before.indexes)[name].name == name && IndexMap(before.indexes)[name] in before.indexes
    ensures forall k | 0 <= k < |before.indexes| && before.indexes[k].name == name :: Get(IndexMap(before.indexes), name) == Some(before.indexes[k])
  {
    if name in IndexMap(before.indexes) { PrevIsHere(before, name); }
    hide IndexMap;
    forall k | 0 <= k < |before.indexes| && before.indexes[k].name == name ensures Get(IndexMap(before.indexes), name) == Some(before.indexes[k]) {
      NewIndexHere(before, k);
    }
  }

  lemma {:induction false} PrevIsHere(before: Table, name: string)
    requires DistinctIndexes(before.indexes) && name in IndexMap(before.indexes)
    ensures IndexMap(before.indexes)[name].name == name && IndexMap(before.indexes)[name] in before.indexes
  {
    assert before.indexes[..|before.indexes|] == before.indexes;
    IndexMapGet(before.indexes, |before.indexes|, name);
    AmongIsHere(before.indexes, |before.indexes|, name);
  }

  lemma {:induction false} AmongIsHere(xs: seq<Index>, n: nat, name: string)
    requires n <= |xs| && IndexAmong(xs, n, name).Some?
    ensures IndexAmong(xs, n, name).value.name == name && IndexAmong(xs, n, name).value in xs
  {
    if xs[n - 1].name != name { AmongIsHere(xs, n - 1, name); }
  }

  lemma AlterReversed(name: string, n: Shape, o: Shape)
    ensures Reverse(UnalterSteps(name, name, n, o)) == DefaultStep(name, n, o) + (NullStep(name, n, o) + TypeStep(name, n, o))
  {
  }

  /**
   * What a caller can check before going back: the old default reads as the new type, where it is put back first, and can then
   * be cast to the old one.
   */
  predicate Reverts(n: Shape, o: Shape) {
    DefaultGoes(n, o, n.sqlType) && NullGoes(n, o) && TypeGoes(n.(fallback := o.fallback), o)
  }

  lemma AlterBack(t: PgTable, name: string, n: Shape, o: Shape, others: set<string>)
    requires name in t.columns && t.columns[name] == n && o.key == n.key
    ensures RunPg(t, Reverse(UnalterSteps(name, name, n, o)), others) ==
            if Reverts(n, o) && RereadsBack(t, name, n, o) then Some(t.(columns := t.columns[name := o])) else None
  {
    AlterReversed(name, n, o);
    var n1, n2 := n.(fallback := o.fallback), n.(fallback := o.fallback, notNull := o.notNull);
    var t1, t2 := t.(columns := t.columns[name := n1]), t.(columns := t.columns[name := n2]);
    assert NullStep(name, n, o) == NullStep(name, n1, o) && TypeStep(name, n, o) == TypeStep(name, n2, o);
    assert t1.columns[name := n2] == t2.columns && t2.columns[name := o] == t.columns[name := o];
    assert n2.(sqlType := o.sqlType) == o;
    hide Reverse, UnalterSteps, TypeStep, NullStep, DefaultStep, RunPg, AllLegible;
    PgJoined(t, DefaultStep(name, n, o), NullStep(name, n, o) + TypeStep(name, n, o), others);
    PgJoined(t1, NullStep(name, n, o), TypeStep(name, n, o), others);
    SetsDefault(t, name, n, o, others);
    SetsNull(t1, name, n1, o, others);
    SetsType(t2, name, n2, o, others);
  }

  /** The old type leaves every index that involves the column something to read. */
  predicate RereadsBack(t: PgTable, name: string, n: Shape, o: Shape) {
    n.sqlType == o.sqlType || AllLegible(t.indexes, t.columns[name := o], name)
  }

  /** The columns when the first n are still altered, and the old indexes, made again. */
  function DownThen(before: Table, after: Table, renames: seq<Rename>, n: nat): PgTable
    requires n <= |after.columns|
  {
    PgTable(ColumnsThen(before, after, renames, n), IndexMap(before.indexes))
  }

  /**
   * The i-th new column, if it has an old one, can be changed back, and the old indexes read again. A default is put back
   * under the column's old name, which a renamed column does not have yet.
   */
  predicate RevertsAt(before: Table, after: Table, renames: seq<Rename>, i: nat)
    requires i < |after.columns|
  {
    var c, o := after.columns[i], OldShape(before.columns, renames, after.columns[i].name);
    o.Some? ==>
      && Reverts(ShapeOf(c), o.value) && RereadsBack(DownThen(before, after, renames, i), c.name, ShapeOf(c), o.value)
      && (c.def.fallback == o.value.fallback || OldName(before.columns, renames, c.name) == c.name)
  }

  /** Every old index can be made again and every changed column changed back, in turn: what decides whether the down list succeeds. */
  predicate Revertible(before: Table, after: Table, renames: seq<Rename>) {
    && (forall i | 0 <= i < |before.indexes| :: RemakesAt(before, after, i))
    && forall i | 0 <= i < |after.columns| :: RevertsAt(before, after, renames, i)
  }

  /** The old name of a renamed column is nobody's in the new table. */
  lemma {:induction false} OldNameRetired(columns: seq<Column>, after: Table, renames: seq<Rename>, name: string)
    requires NoReuse(after, renames)
    ensures OldName(columns, renames, name) == name || OldName(columns, renames, name) !in ColumnNames(after.columns)
  {
    if columns != [] {
      LookupCases(after, renames, columns[0].name);
      OldNameRetired(columns[1..], after, renames, name);
    }
  }

  /** Taking back a column that was renamed: the default has no column to go to. */
  lemma AlterRenamedBack(t: PgTable, name: string, was: string, n: Shape, o: Shape, others: set<string>)
    requires was !in t.columns && name in t.columns && t.columns[name] == n && o.key == n.key
    ensures RunPg(t, Reverse(UnalterSteps(name, was, n, o)), others) ==
            if n.fallback == o.fallback && Reverts(n, o) && RereadsBack(t, name, n, o) then Some(t.(columns := t.columns[name := o])) else None
  {
    hide *;
    RenamedReversed(name, was, n, o);
    if n.fallback == o.fallback {
      AlterBack(t, name, n, o, others);
    } else {
      var rest := NullStep(name, n, o) + TypeStep(name, n, o);
      PgJoined(t, [SetFallback(was, o.fallback)], rest, others);
      OnePg(t, SetFallback(was, o.fallback), others);
      NoDefault(t, was, o.fallback, others);
    }
  }

  lemma RenamedReversed(name: string, was: string, n: Shape, o: Shape)
    ensures if n.fallback == o.fallback then UnalterSteps(name, was, n, o) == UnalterSteps(name, name, n, o)
            else Reverse(UnalterSteps(name, was, n, o)) == [SetFallback(was, o.fallback)] + (NullStep(name, n, o) + TypeStep(name, n, o))
  {
  }

  lemma NoDefault(t: PgTable, was: string, v: Value, others: set<string>)
    requires was !in t.columns
    ensures ExecutePg(t, SetFallback(was, v), others) == None
  {
  }

  lemma DownThenNext(before: Table, after: Table, renames: seq<Rename>, n: nat)
    requires 0 < n <= |after.columns| && DistinctColumns(after.columns)
    ensures var c, t := after.columns[n - 1], DownThen(before, after, renames, n - 1);
            && c.name in t.columns
            && (OldShape(before.columns, renames, c.name).Some? ==>
                  && t.columns[c.name] == OldShape(before.columns, renames, c.name).value
                  && DownThen(before, after, renames, n) == t.(columns := t.columns[c.name := ShapeOf(c)]))
            && (OldShape(before.columns, renames, c.name).None? ==> DownThen(before, after, renames, n) == t)
  {
    ThenNext(before, after, renames, n);
    hide OldShape, ColumnsThen, Carried;
  }

  lemma AltersOver(before: Table, after: Table, renames: seq<Rename>, n: nat, name: string)
    requires n <= |after.columns| && NoReuse(after, renames)
    ensures var was := OldName(before.columns, renames, name); was == name || was !in DownThen(before, after, renames, n).columns
  {
    OldNameRetired(before.columns, after, renames, name);
    ShapeMapKeys(after.columns);
  }

  /** One column taken back, renamed or not. */
  lemma UndoAlter(t: PgTable, name: string, was: string, n: Shape, o: Shape, others: set<string>)
    requires name in t.columns && t.columns[name] == n && o.key == n.key && (was == name || was !in t.columns)
    ensures RunPg(t, Reverse(UnalterSteps(name, was, n, o)), others) ==
            if (n.fallback == o.fallback || was == name) && Reverts(n, o) && RereadsBack(t, name, n, o)
            then Some(t.(columns := t.columns[name := o])) else None
  {
    hide *;
    if was == name { AlterBack(t, name, n, o, others); } else { AlterRenamedBack(t, name, was, n, o, others); }
  }

  lemma KeyStays(before: Table, after: Table, renames: seq<Rename>, i: nat)
    requires i < |after.columns| && SameKeys(before, after, renames)
    ensures var o := OldShape(before.columns, renames, after.columns[i].name); o.Some? ==> o.value.key == ShapeOf(after.columns[i]).key
  {
    hide OldShape;
  }

  /** The first n new columns can be changed back. */
  predicate AllRevertTo(before: Table, after: Table, renames: seq<Rename>, n: nat)
    requires n <= |after.columns|
  {
    forall i | 0 <= i < n :: RevertsAt(before, after, renames, i)
  }

  lemma RevertsNext(before: Table, after: Table, renames: seq<Rename>, n: nat)
    requires 0 < n <= |after.columns|
    ensures AllRevertTo(before, after, renames, n) <==> AllRevertTo(before, after, renames, n - 1) && RevertsAt(before, after, renames, n - 1)
    ensures var c, o := after.columns[n - 1], OldShape(before.columns, renames, after.columns[n - 1].name);
            RevertsAt(before, after, renames, n - 1) <==>
              (o.Some? ==>
                && (ShapeOf(c).fallback == o.value.fallback || OldName(before.columns, renames, c.name) == c.name)
                && Reverts(ShapeOf(c), o.value) && RereadsBack(DownThen(before, after, renames, n - 1), c.name, ShapeOf(c), o.value))
  {
    hide OldShape, OldName, Reverts, RereadsBack, DownThen;
  }

  lemma DownAltersLast(before: Table, after: Table, renames: seq<Rename>, n: nat)
    requires 0 < n <= |after.columns|
    ensures var c, o := after.columns[n - 1], OldShape(before.columns, renames, after.columns[n - 1].name);
            Reverse(DownAlters(before, after, renames, n)) ==
            (if o.Some? then Reverse(UnalterSteps(c.name, OldName(before.columns, renames, c.name), ShapeOf(c), o.value)) else [])
            + Reverse(DownAlters(before, after, renames, n - 1))
  {
    hide OldShape, OldName, UnalterSteps, Reverse, ShapeOf;
    var c, o := after.columns[n - 1], OldShape(before.columns, renames, after.columns[n - 1].name);
    if o.Some? {
      ReverseJoined(DownAlters(before, after, renames, n - 1), UnalterSteps(c.name, OldName(before.columns, renames, c.name), ShapeOf(c), o.value));
    }
  }

  lemma {:induction false} UndoAlters(before: Table, after: Table, renames: seq<Rename>, n: nat, others: set<string>)
    requires n <= |after.columns| && DistinctColumns(after.columns) && SameKeys(before, after, renames) && NoReuse(after, renames)
    ensures RunPg(DownThen(before, after, renames, n), Reverse(DownAlters(before, after, renames, n)), others) ==
            if AllRevertTo(before, after, renames, n) then Some(DownThen(before, after, renames, 0)) else None
    decreases n
  {
    hide *;
    if n == 0 {
      NoAlters(before, after, renames, others);
    } else {
      var t, m := DownThen(before, after, renames, n), DownThen(before, after, renames, n - 1);
      var c, o := after.columns[n - 1], OldShape(before.columns, renames, after.columns[n - 1].name);
      var was, rest := OldName(before.columns, renames, c.name), Reverse(DownAlters(before, after, renames, n - 1));
      DownThenNext(before, after, renames, n);
      KeyStays(before, after, renames, n - 1);
      RevertsNext(before, after, renames, n);
      DownAltersLast(before, after, renames, n);
      UndoAlters(before, after, renames, n - 1, others);
      if o.Some? {
        AltersOver(before, after, renames, n, c.name);
        PgJoined(t, Reverse(UnalterSteps(c.name, was, ShapeOf(c), o.value)), rest, others);
        BackFrom(t, m, c.name, ShapeOf(c), o.value);
        UndoAlter(t, c.name, was, ShapeOf(c), o.value, others);
      } else {
        assert [] + rest == rest;
      }
    }
  }

  lemma NoAlters(before: Table, after: Table, renames: seq<Rename>, others: set<string>)
    ensures RunPg(DownThen(before, after, renames, 0), Reverse(DownAlters(before, after, renames, 0)), others) == Some(DownThen(before, after, renames, 0))
    ensures AllRevertTo(before, after, renames, 0)
  {
    NothingRun(DownThen(before, after, renames, 0), others);
    NothingReversed<Step>();
    hide DownThen;
  }

  /** Taking a column back gives the table before it was altered. */
  lemma BackFrom(t: PgTable, m: PgTable, name: string, n: Shape, o: Shape)
    requires name in m.columns && m.columns[name] == o && t == m.(columns := m.columns[name := n])
    ensures name in t.columns && t.columns[name] == n && t.(columns := t.columns[name := o]) == m
    ensures RereadsBack(t, name, n, o) <==> RereadsBack(m, name, n, o)
  {
    assert t.columns[name := o] == m.columns && m.columns[name := o] == m.columns;
    hide AllLegible;
  }

  /** The dropped columns come back as they were declared. */
  lemma {:induction false} UndoDrops(t: PgTable, before: Table, after: Table, renames: seq<Rename>, n: nat, others: set<string>) returns (r: PgTable)
    requires n <= |before.columns| && DistinctColumns(before.columns)
    requires forall i | 0 <= i < n && !Declares(after.columns, Lookup(renames, before.columns[i].name)) ::
               before.columns[i].name !in t.columns && !before.columns[i].pk
    ensures RunPg(t, Reverse(DownDrops(before, after, renames, n)), others) == Some(r) && r.indexes == t.indexes
    ensures forall c :: Get(r.columns, c) == if Goes(before, after, renames, n, c) then ShapeAmong(before.columns, n, c) else Get(t.columns, c)
    decreases n
  {
    hide RunPg, ExecutePg, Lookup, Declares, Reverse;
    if n == 0 {
      r := t;
      NothingRun(t, others);
      NothingReversed<Step>();
    } else {
      var c := before.columns[n - 1];
      NotAmong(before.columns, n - 1);
      if !Declares(after.columns, Lookup(renames, c.name)) {
        var m := AddOne(t, c.name, ShapeOf(c), others);
        r := UndoDrops(m, before, after, renames, n - 1, others);
        ReverseJoined(DownDrops(before, after, renames, n - 1), [AddCol(c.name, ShapeOf(c))]);
        OneReversed(AddCol(c.name, ShapeOf(c)));
        PgJoined(t, [AddCol(c.name, ShapeOf(c))], Reverse(DownDrops(before, after, renames, n - 1)), others);
        forall d ensures Goes(before, after, renames, n, d) <==> d == c.name || Goes(before, after, renames, n - 1, d) { }
      } else {
        r := UndoDrops(t, before, after, renames, n - 1, others);
        assert DownDrops(before, after, renames, n) == DownDrops(before, after, renames, n - 1);
        forall d ensures Goes(before, after, renames, n, d) <==> Goes(before, after, renames, n - 1, d) { }
      }
    }
  }

  /** The added columns go, and take no index along. */
  lemma {:induction false} UndoAdds(t: PgTable, before: Table, after: Table, renames: seq<Rename>, n: nat, others: set<string>) returns (r: PgTable)
    requires n <= |after.columns| && DistinctColumns(after.columns)
    requires forall i | 0 <= i < n && OldShape(before.columns, renames, after.columns[i].name).None? ::
               && after.columns[i].name in t.columns && !t.columns[after.columns[i].name].key
               && forall x | x in t.indexes :: !Involves(t.indexes[x], after.columns[i].name)
    ensures RunPg(t, Reverse(DownAdds(before, after, renames, n)), others) == Some(r) && r.indexes == t.indexes
    ensures forall c :: Get(r.columns, c) ==
              if OldShape(before.columns, renames, c).None? && ShapeAmong(after.columns, n, c).Some? then None else Get(t.columns, c)
    decreases n
  {
    hide RunPg, ExecutePg, OldShape, Involves, Reverse;
    if n == 0 {
      r := t;
      NothingRun(t, others);
      NothingReversed<Step>();
    } else {
      var c := after.columns[n - 1];
      NotAmong(after.columns, n - 1);
      if OldShape(before.columns, renames, c.name).None? {
        var m := DropOne(t, c.name, others);
        assert m.indexes == t.indexes;
        r := UndoAdds(m, before, after, renames, n - 1, others);
        ReverseJoined(DownAdds(before, after, renames, n - 1), [DropCol(c.name)]);
        OneReversed(DropCol(c.name));
        PgJoined(t, [DropCol(c.name)], Reverse(DownAdds(before, after, renames, n - 1)), others);
      } else {
        r := UndoAdds(t, before, after, renames, n - 1, others);
        assert DownAdds(before, after, renames, n) == DownAdds(before, after, renames, n - 1);
      }
    }
  }

  /** Renames run backwards give the old names back, and touch no index that names none of the new ones. */
  lemma {:induction false} UndoRenames(columns: map<string, Shape>, indexes: map<string, Index>, renames: seq<Rename>, others: set<string>)
    requires Accepted(columns.Keys, renames)
    requires forall x, i | x in indexes && 0 <= i < |renames| :: !Involves(indexes[x], renames[i].becomes)
    ensures RunPg(PgTable(RowAfter(columns, renames), indexes), Reverse(DownRenames(renames)), others) == Some(PgTable(columns, indexes))
    decreases |renames|
  {
    hide RunPg, ExecutePg, Involves, Reverse;
    if renames == [] {
      NothingRun(PgTable(columns, indexes), others);
      NothingReversed<Step>();
    } else {
      var a, b, rest := renames[0].was, renames[0].becomes, renames[1..];
      var next := RenamedRow(columns, a, b);
      AcceptedRest(columns.Keys, renames);
      assert next.Keys == columns.Keys - {a} + {b};
      forall i | 0 <= i < |rest| ensures rest[i] == renames[i + 1] { }
      UndoRenames(next, indexes, rest, others);
      assert DownRenames(renames) == [RenameCol(b, a)] + DownRenames(rest);
      ReverseJoined([RenameCol(b, a)], DownRenames(rest));
      OneReversed(RenameCol(b, a));
      PgJoined(PgTable(RowAfter(columns, renames), indexes), Reverse(DownRenames(rest)), [RenameCol(b, a)], others);
      RenameOneBack(columns, indexes, a, b, others);
    }
  }

  lemma RenameOneBack(columns: map<string, Shape>, indexes: map<string, Index>, a: string, b: string, others: set<string>)
    requires a in columns && b !in columns && forall x | x in indexes :: !Involves(indexes[x], b)
    ensures RunPg(PgTable(RenamedRow(columns, a, b), indexes), [RenameCol(b, a)], others) == Some(PgTable(columns, indexes))
  {
    OnePg(PgTable(RenamedRow(columns, a, b), indexes), RenameCol(b, a), others);
    forall x | x in indexes ensures RenamedIndex(indexes[x], b, a) == indexes[x] { RenameLeaves(indexes[x], b, a); }
    assert RenamedIndexes(indexes, b, a) == indexes;
    assert RenamedRow(RenamedRow(columns, a, b), b, a) == columns;
  }

  // ---- Down after up ------------------------------------------------------------------------

  lemma OldIndexFits(before: Table, after: Table, i: nat)
    requires WellFormed(before) && PredicatesFormed(before) && ColumnNames(before.columns) <= ColumnNames(after.columns) && i < |before.indexes|
    ensures Fits(PgOf(after), before.indexes[i])
  {
    ShapeMapKeys(after.columns);
    forall j | 0 <= j < |before.indexes[i].columns| ensures before.indexes[i].columns[j] in ColumnNames(before.columns) { }
    forall j | 0 <= j < |before.indexes[i].where| && before.indexes[i].where[j].Name? ensures before.indexes[i].where[j].name in ColumnNames(before.columns) { }
    hide ColumnNames, ShapeMap;
  }

  lemma IndexesBack(before: Table, after: Table, renames: seq<Rename>, others: set<string>)
    requires Replayable(before, after, renames, others)
    ensures RunPg(PgOf(after), Reverse(DownOldIndexes(before, after, |before.indexes|)) + Reverse(DownNewIndexes(before, after, |after.indexes|)), others) ==
            if forall i | 0 <= i < |before.indexes| :: RemakesAt(before, after, i)
            then Some(PgTable(ShapeMap(after.columns), IndexMap(before.indexes))) else None
  {
    var t := PgOf(after);
    hide RunPg, Fits, DownOldIndexes, DownNewIndexes, Reverse, ShapeMap, IndexMap;
    hide IndexAmong, WellFormed, PredicatesFormed, Accepted, OldsRemake, PrevsRemake, RemakesAt;
    AllRemake(before, after);
    var m := UndoOldIndexes(t, before, after, |before.indexes|, others);
    PgJoined(t, Reverse(DownOldIndexes(before, after, |before.indexes|)), Reverse(DownNewIndexes(before, after, |after.indexes|)), others);
    if m.Some? {
      var r := UndoNewIndexes(m.value, before, after, |after.indexes|, others);
      if r.Some? {
        assert after.indexes[..|after.indexes|] == after.indexes && before.indexes[..|before.indexes|] == before.indexes;
        forall name ensures Get(r.value.indexes, name) == Get(IndexMap(before.indexes), name) {
          IndexMapGet(after.indexes, |after.indexes|, name);
          IndexMapGet(before.indexes, |before.indexes|, name);
          assert name in IndexMap(after.indexes) <==> Get(IndexMap(after.indexes), name).Some?;
        }
        SameByGet(r.value.indexes, IndexMap(before.indexes));
      }
    }
  }

  /** Every old index has a new one in its place, or none. */
  lemma AllRemake(before: Table, after: Table)
    requires DistinctIndexes(after.indexes)
    ensures OldsRemake(before, after, |before.indexes|) && PrevsRemake(before, after, |after.indexes|) <==>
            forall i | 0 <= i < |before.indexes| :: RemakesAt(before, after, i)
  {
    assert after.indexes[..|after.indexes|] == after.indexes;
    hide RemakesAt, IndexMap, IndexAmong;
    forall name ensures name in IndexMap(after.indexes) <==> IndexAmong(after.indexes, |after.indexes|, name).Some? {
      IndexMapGet(after.indexes, |after.indexes|, name);
    }
  }

  /** An old index names columns of the old table only. */
  lemma InvolvesOld(before: Table, x: string, c: string)
    requires WellFormed(before) && PredicatesFormed(before) && DistinctIndexes(before.indexes)
    requires x in IndexMap(before.indexes) && Involves(IndexMap(before.indexes)[x], c)
    ensures c in ColumnNames(before.columns)
  {
    PrevIsHere(before, x);
    var idx := IndexMap(before.indexes)[x];
    var i :| 0 <= i < |before.indexes| && before.indexes[i] == idx;
    if c in idx.columns {
      var j :| 0 <= j < |idx.columns| && idx.columns[j] == c;
      assert before.indexes[i].columns[j] in ColumnNames(before.columns);
    } else {
      var j :| 0 <= j < |idx.where| && idx.where[j] == Name(c);
      assert before.indexes[i].where[j].name in ColumnNames(before.columns);
    }
  }

  /** The name of an added column was no old column's. */
  lemma AddedIsNew(before: Table, after: Table, renames: seq<Rename>, i: nat)
    requires NoReuse(after, renames) && i < |after.columns| && OldShape(before.columns, renames, after.columns[i].name).None?
    ensures after.columns[i].name !in ColumnNames(before.columns)
  {
    var c := after.columns[i].name;
    LookupCases(after, renames, c);
    OldShapeFrom(before.columns, renames, c);
    assert c in ColumnNames(after.columns);
  }

  /** A dropped column is in the new table under no name. */
  lemma DroppedIsGone(before: Table, after: Table, renames: seq<Rename>, i: nat)
    requires NoReuse(after, renames) && i < |before.columns| && !Declares(after.columns, Lookup(renames, before.columns[i].name))
    ensures before.columns[i].name !in ColumnNames(after.columns)
  {
    LookupCases(after, renames, before.columns[i].name);
    DeclaresIsNamed(after.columns, Lookup(renames, before.columns[i].name));
  }

  /** Dropped columns added, added ones dropped: the old shapes under their new names. */
  lemma ColumnsReturn(before: Table, after: Table, renames: seq<Rename>, others: set<string>) returns (r: PgTable)
    requires Replayable(before, after, renames, others)
    ensures RunPg(DownThen(before, after, renames, 0),
                  Reverse(DownDrops(before, after, renames, |before.columns|)) + Reverse(DownAdds(before, after, renames, |after.columns|)), others) == Some(r)
    ensures r == PgTable(RowAfter(ShapeMap(before.columns), renames), IndexMap(before.indexes))
  {
    var t := DownThen(before, after, renames, 0);
    ShapeMapKeys(after.columns);
    hide RunPg, Reverse, OldShape, DownDrops, DownAdds, Involves, ShapeMap, IndexMap, Goes, Accepted, WellFormed, PredicatesFormed, RowAfter;
    forall i | 0 <= i < |before.columns| && !Declares(after.columns, Lookup(renames, before.columns[i].name))
      ensures before.columns[i].name !in t.columns && !before.columns[i].pk
    {
      DroppedIsGone(before, after, renames, i);
    }
    NewIsDistinct(before);
    NewIsDistinct(after);
    var m := UndoDrops(t, before, after, renames, |before.columns|, others);
    forall i | 0 <= i < |after.columns| && OldShape(before.columns, renames, after.columns[i].name).None?
      ensures after.columns[i].name in m.columns && !m.columns[after.columns[i].name].key
      ensures forall x | x in m.indexes :: !Involves(m.indexes[x], after.columns[i].name)
    {
      AddedStands(before, after, renames, i, t, m);
    }
    r := UndoAdds(m, before, after, renames, |after.columns|, others);
    PgJoined(t, Reverse(DownDrops(before, after, renames, |before.columns|)), Reverse(DownAdds(before, after, renames, |after.columns|)), others);
    forall c ensures Get(r.columns, c) == Get(RowAfter(ShapeMap(before.columns), renames), c) {
      ReturnedShape(before, after, renames, c, t.columns, m.columns, r.columns);
    }
    SameByGet(r.columns, RowAfter(ShapeMap(before.columns), renames));
  }

  lemma AddedStands(before: Table, after: Table, renames: seq<Rename>, i: nat, t: PgTable, m: PgTable)
    requires WellFormed(before) && PredicatesFormed(before) && DistinctIndexes(before.indexes) && DistinctColumns(after.columns)
    requires NoReuse(after, renames) && AddsNoKey(before, after, renames)
    requires i < |after.columns| && OldShape(before.columns, renames, after.columns[i].name).None?
    requires t == DownThen(before, after, renames, 0) && m.indexes == IndexMap(before.indexes)
    requires forall c :: Get(m.columns, c) ==
               if Goes(before, after, renames, |before.columns|, c) then ShapeAmong(before.columns, |before.columns|, c) else Get(t.columns, c)
    ensures after.columns[i].name in m.columns && !m.columns[after.columns[i].name].key
    ensures forall x | x in m.indexes :: !Involves(m.indexes[x], after.columns[i].name)
  {
    var c := after.columns[i];
    AddedIsNew(before, after, renames, i);
    ShapeMapHas(after.columns, i);
    GoneIs(before, after, renames, c.name);
    hide OldShape, Involves, ShapeMap, IndexMap, Goes, WellFormed, PredicatesFormed;
    assert Get(m.columns, c.name) == Some(ShapeOf(c));
    forall x | x in m.indexes ensures !Involves(m.indexes[x], c.name) {
      if Involves(m.indexes[x], c.name) { InvolvesOld(before, x, c.name); }
    }
  }

  lemma ReturnedShape(before: Table, after: Table, renames: seq<Rename>, c: string,
                      t: map<string, Shape>, m: map<string, Shape>, r: map<string, Shape>)
    requires DistinctColumns(before.columns) && Accepted(ColumnNames(before.columns), renames) && NoReuse(after, renames)
    requires t == DownThen(before, after, renames, 0).columns
    requires Get(m, c) == if Goes(before, after, renames, |before.columns|, c) then ShapeAmong(before.columns, |before.columns|, c) else Get(t, c)
    requires Get(r, c) == if OldShape(before.columns, renames, c).None? && ShapeAmong(after.columns, |after.columns|, c).Some? then None else Get(m, c)
    ensures Get(r, c) == Get(RowAfter(ShapeMap(before.columns), renames), c)
  {
    HeldAfterRenames(before, renames, c);
    FinalShape(before, after, renames, c);
    assert after.columns[..|after.columns|] == after.columns;
    ShapeMapGet(after.columns, |after.columns|, c);
    if Goes(before, after, renames, |before.columns|, c) { GoneShape(before, after, renames, c); }
    hide OldShape, ShapeMap, Goes, RowAfter, Accepted;
  }

  lemma GoneShape(before: Table, after: Table, renames: seq<Rename>, c: string)
    requires DistinctColumns(before.columns) && Accepted(ColumnNames(before.columns), renames) && NoReuse(after, renames)
    requires Goes(before, after, renames, |before.columns|, c)
    ensures OldShape(before.columns, renames, c) == ShapeAmong(before.columns, |before.columns|, c)
  {
    var i :| 0 <= i < |before.columns| && before.columns[i].name == c && !Declares(after.columns, Lookup(renames, c));
    DroppedAreHeld(before, after, renames, i);
    AmongAt(before.columns, |before.columns|, i);
  }

  lemma {:induction false} AmongAt(columns: seq<Column>, n: nat, i: nat)
    requires DistinctColumns(columns) && i < n <= |columns|
    ensures ShapeAmong(columns, n, columns[i].name) == Some(ShapeOf(columns[i]))
  {
    if i < n - 1 { AmongAt(columns, n - 1, i); }
  }

  lemma RenamesReturn(before: Table, after: Table, renames: seq<Rename>, others: set<string>)
    requires Replayable(before, after, renames, others)
    ensures RunPg(PgTable(RowAfter(ShapeMap(before.columns), renames), IndexMap(before.indexes)), Reverse(DownRenames(renames)), others) == Some(PgOf(before))
  {
    ShapeMapKeys(before.columns);
    hide RunPg, Reverse, Involves, ShapeMap, IndexMap, RowAfter;
    forall x, i | x in IndexMap(before.indexes) && 0 <= i < |renames| ensures !Involves(IndexMap(before.indexes)[x], renames[i].becomes) {
      if Involves(IndexMap(before.indexes)[x], renames[i].becomes) { InvolvesOld(before, x, renames[i].becomes); }
    }
    UndoRenames(ShapeMap(before.columns), IndexMap(before.indexes), renames, others);
  }

  function ColumnsDown(before: Table, after: Table, renames: seq<Rename>): seq<Step> {
    Reverse(DownAlters(before, after, renames, |after.columns|))
    + ((Reverse(DownDrops(before, after, renames, |before.columns|)) + Reverse(DownAdds(before, after, renames, |after.columns|)))
       + Reverse(DownRenames(renames)))
  }

  lemma ColumnsBack(before: Table, after: Table, renames: seq<Rename>, others: set<string>)
    requires Replayable(before, after, renames, others)
    ensures RunPg(PgTable(ShapeMap(after.columns), IndexMap(before.indexes)), ColumnsDown(before, after, renames), others) ==
            if forall i | 0 <= i < |after.columns| :: RevertsAt(before, after, renames, i) then Some(PgOf(before)) else None
  {
    var t, m := DownThen(before, after, renames, |after.columns|), DownThen(before, after, renames, 0);
    EndsThen(before, after, renames);
    NewIsDistinct(after);
    hide RunPg, OldShape, DownAlters, DownAdds, DownDrops, Reverse, ShapeMap, IndexMap, Accepted, RevertsAt, ColumnsThen, WellFormed, PredicatesFormed, RowAfter;
    var alters, moves, names := Reverse(DownAlters(before, after, renames, |after.columns|)),
        Reverse(DownDrops(before, after, renames, |before.columns|)) + Reverse(DownAdds(before, after, renames, |after.columns|)), Reverse(DownRenames(renames));
    UndoAlters(before, after, renames, |after.columns|, others);
    PgJoined(t, alters, moves + names, others);
    PgJoined(m, moves, names, others);
    var r := ColumnsReturn(before, after, renames, others);
    RenamesReturn(before, after, renames, others);
  }

  lemma DownListIs(before: Table, after: Table, renames: seq<Rename>)
    ensures DownList(before, after, renames) ==
            (Reverse(DownOldIndexes(before, after, |before.indexes|)) + Reverse(DownNewIndexes(before, after, |after.indexes|)))
            + ColumnsDown(before, after, renames)
  {
    var a, b, c, d := DownRenames(renames), DownAdds(before, after, renames, |after.columns|), DownDrops(before, after, renames, |before.columns|),
                      DownAlters(before, after, renames, |after.columns|);
    var e, f := DownNewIndexes(before, after, |after.indexes|), DownOldIndexes(before, after, |before.indexes|);
    hide Reverse, DownAdds, DownAlters, DownNewIndexes, DownOldIndexes, DownDrops, DownRenames;
    ReverseSix(a, b, c, d, e, f);
  }

  lemma ReverseSix<T>(a: seq<T>, b: seq<T>, c: seq<T>, d: seq<T>, e: seq<T>, f: seq<T>)
    ensures Reverse(a + b + c + d + e + f) == (Reverse(f) + Reverse(e)) + (Reverse(d) + ((Reverse(c) + Reverse(b)) + Reverse(a)))
  {
    hide Reverse;
    ReverseJoined(a + b + c + d + e, f);
    ReverseJoined(a + b + c + d, e);
    ReverseJoined(a + b + c, d);
    ReverseJoined(a + b, c);
    ReverseJoined(a, b);
    assert Reverse(f) + (Reverse(e) + (Reverse(d) + (Reverse(c) + (Reverse(b) + Reverse(a)))))
        == (Reverse(f) + Reverse(e)) + (Reverse(d) + ((Reverse(c) + Reverse(b)) + Reverse(a)));
  }

  /**
   * Each list succeeds exactly under its condition: up gives the new table exactly, and the reversed down list the old one,
   * whatever was renamed, added, dropped or altered.
   */
  lemma DownUndoesUp(before: Table, after: Table, renames: seq<Rename>, others: set<string>)
    requires Replayable(before, after, renames, others)
    ensures RunPg(PgOf(before), UpList(before, after, renames), others) == if Alterable(before, after, renames) then Some(PgOf(after)) else None
    ensures RunPg(PgOf(after), DownList(before, after, renames), others) == if Revertible(before, after, renames) then Some(PgOf(before)) else None
  {
    UpReplays(before, after, renames, others);
    hide RunPg, UpList, DownList, Reverse, PgOf, ShapeMap, IndexMap, ColumnsDown;
    hide DownOldIndexes, DownNewIndexes, WellFormed, PredicatesFormed, Accepted;
    hide Alterable, RemakesAt, RevertsAt, KeysKept;
    IndexesBack(before, after, renames, others);
    ColumnsBack(before, after, renames, others);
    DownListIs(before, after, renames);
    PgJoined(PgOf(after), Reverse(DownOldIndexes(before, after, |before.indexes|)) + Reverse(DownNewIndexes(before, after, |after.indexes|)),
             ColumnsDown(before, after, renames), others);
  }

  /** An old index over a column that was dropped or renamed cannot be made again before the column is back. */
  lemma IndexedColumnStopsDown(before: Table, after: Table, renames: seq<Rename>, others: set<string>, i: nat, c: string)
    requires Replayable(before, after, renames, others) && i < |before.indexes|
    requires Involves(before.indexes[i], c) && c !in ColumnNames(after.columns)
    ensures RunPg(PgOf(after), DownList(before, after, renames), others) == None
  {
    ShapeMapKeys(after.columns);
    DownUndoesUp(before, after, renames, others);
    if Get(IndexMap(after.indexes), before.indexes[i].name) == Some(before.indexes[i]) {
      PrevIsHere(after, before.indexes[i].name);
      InvolvesOld(after, before.indexes[i].name, c);
    }
    assert !RemakesAt(before, after, i) by { hide Legible, IndexMap; }
  }

  /** A renamed column whose default changed cannot be taken back: the default goes to the name the column does not have yet. */
  lemma RenamedDefaultStopsDown(before: Table, after: Table, renames: seq<Rename>, others: set<string>, i: nat)
    requires Replayable(before, after, renames, others) && i < |after.columns|
    requires var o := OldShape(before.columns, renames, after.columns[i].name); o.Some? && o.value.fallback != after.columns[i].def.fallback
    requires OldName(before.columns, renames, after.columns[i].name) != after.columns[i].name
    ensures RunPg(PgOf(after), DownList(before, after, renames), others) == None
  {
    DownUndoesUp(before, after, renames, others);
    hide RunPg, DownList, Replayable, Reverts, RereadsBack;
    assert !RevertsAt(before, after, renames, i);
  }

  /** Down, the old index is made while its column still has the new type. */
  lemma PredicateBlocksDown()
    ensures Replayable(OF_STRINGS, OF_NUMBERS, [], {}) && RunPg(PgOf(OF_NUMBERS), DownList(OF_STRINGS, OF_NUMBERS, []), {}) == None
  {
    var before, after := OF_STRINGS, OF_NUMBERS;
    StringsReplayable();
    TypesOfOne(NUMBERS);
    assert before.columns[0].name == "c" && after.columns[0].name == "c";
    hide Replayable, DownList, RunPg;
    MisreadsNumbers(ShapeMap(after.columns));
    assert after.indexes[..0] == [] && IndexMap(after.indexes) == map["i" := after.indexes[0]];
    assert UNLIKE_EMPTY[1] != UNLIKE_ZERO[1];
    assert !RemakesAt(before, after, 0);
    DownUndoesUp(before, after, [], {});
  }

  // ---- The emitting loops -------------------------------------------------------------------

  method EmitRenames(renames: seq<Rename>) returns (up: seq<Step>, down: seq<Step>)
    ensures up == RenameCols(renames) && down == DownRenames(renames)
  {
    up, down := [], [];
    for i := 0 to |renames|
      invariant up + RenameCols(renames[i..]) == RenameCols(renames)
      invariant down == DownRenames(renames)[..i]
    {
      assert renames[i..][0] == renames[i] && renames[i..][1..] == renames[i + 1..];
      up := up + [RenameCol(renames[i].was, renames[i].becomes)];
      down := down + [RenameCol(renames[i].becomes, renames[i].was)];
    }
    assert renames[|renames|..] == [];
  }

  method EmitModified(before: Table, after: Table, renames: seq<Rename>) returns (up: seq<Step>, down: seq<Step>)
    ensures up == AlterCols(before, after, renames, |after.columns|) && down == DownAlters(before, after, renames, |after.columns|)
  {
    hide OldShape, OldName, AlterSteps, UnalterSteps, ShapeOf;
    up, down := [], [];
    for i := 0 to |after.columns|
      invariant up == AlterCols(before, after, renames, i) && down == DownAlters(before, after, renames, i)
    {
      var nc := after.columns[i];
      var oc := OldShape(before.columns, renames, nc.name);
      if oc.Some? {
        up := up + AlterSteps(nc.name, oc.value, ShapeOf(nc));
        down := down + UnalterSteps(nc.name, OldName(before.columns, renames, nc.name), ShapeOf(nc), oc.value);
      }
    }
  }

  method EmitAdded(before: Table, after: Table, renames: seq<Rename>) returns (up: seq<Step>, down: seq<Step>)
    ensures up == AddCols(before, after, renames, |after.columns|) && down == DownAdds(before, after, renames, |after.columns|)
  {
    hide OldShape, ShapeOf;
    up, down := [], [];
    for i := 0 to |after.columns|
      invariant up == AddCols(before, after, renames, i) && down == DownAdds(before, after, renames, i)
    {
      var c := after.columns[i];
      if OldShape(before.columns, renames, c.name).None? {
        up := up + [AddCol(c.name, ShapeOf(c))];
        down := down + [DropCol(c.name)];
      }
    }
  }

  method EmitDropped(before: Table, after: Table, renames: seq<Rename>) returns (up: seq<Step>, down: seq<Step>)
    ensures up == DropCols(before, after, renames, |before.columns|) && down == DownDrops(before, after, renames, |before.columns|)
  {
    hide Lookup, Declares, ShapeOf;
    up, down := [], [];
    for i := 0 to |before.columns|
      invariant up == DropCols(before, after, renames, i) && down == DownDrops(before, after, renames, i)
    {
      var c := before.columns[i];
      if !Declares(after.columns, Lookup(renames, c.name)) {
        up := up + [DropCol(c.name)];
        down := down + [AddCol(c.name, ShapeOf(c))];
      }
    }
  }

  method EmitIndexes(before: Table, after: Table) returns (up: seq<Step>, down: seq<Step>)
    ensures up == NewIndexes(before, after, |after.indexes|) + OldIndexes(before, after, |before.indexes|)
    ensures down == DownNewIndexes(before, after, |after.indexes|) + DownOldIndexes(before, after, |before.indexes|)
  {
    hide IndexMap;
    up, down := [], [];
    var olds, news := IndexMap(before.indexes), IndexMap(after.indexes);
    for i := 0 to |after.indexes|
      invariant up == NewIndexes(before, after, i) && down == DownNewIndexes(before, after, i)
    {
      var x := after.indexes[i];
      if x.name !in olds {
        up, down := up + [MakeIndex(x)], down + [DropIndex(x.name)];
      } else if olds[x.name] != x {
        up := up + [DropIndex(x.name), MakeIndex(x)];
        down := down + [MakeIndex(olds[x.name]), DropIndex(x.name)];
      }
    }
    var removed, restored := [], [];
    for i := 0 to |before.indexes|
      invariant removed == OldIndexes(before, after, i) && restored == DownOldIndexes(before, after, i)
    {
      var x := before.indexes[i];
      if x.name !in news {
        removed, restored := removed + [DropIndex(x.name)], restored + [MakeIndex(x)];
      }
    }
    up, down := up + removed, down + restored;
  }

  /** The in-place diff: renames, added, dropped and modified columns, then the indexes; the down statements in the same order. */
  method EmitDiff(before: Table, after: Table, renames: seq<Rename>) returns (up: seq<Step>, down: seq<Step>)
    ensures up == UpList(before, after, renames) && down == DownElements(before, after, renames)
  {
    var renameUp, renameDown := EmitRenames(renames);
    var modUp, modDown := EmitModified(before, after, renames);
    var addUp, addDown := EmitAdded(before, after, renames);
    var dropUp, dropDown := EmitDropped(before, after, renames);
    var indexUp, indexDown := EmitIndexes(before, after);
    hide RenameCols, AddCols, DropCols, AlterCols, NewIndexes, OldIndexes;
    hide DownAdds, DownDrops, DownAlters, DownNewIndexes, DownOldIndexes;
    up := renameUp + addUp + dropUp + modUp + indexUp;
    down := renameDown + addDown + dropDown + modDown + indexDown;
  }
}
