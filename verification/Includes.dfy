/** Include loading: batched split queries over a tree of relations, against one query for each parent. */
module Includes {
  import opened Options
  import opened OrderedSeqs

  import opened IncludeQueries

  // ---- Answers ------------------------------------------------------------------------------

  lemma CappedFrom(spec: Spec, rows: seq<Row>, x: Row)
    ensures multiset(Capped(spec, rows))[x] <= multiset(rows)[x]
    ensures x in Capped(spec, rows) ==> x in rows
  {
    if spec.limit.Some? {
      var sorted := Sort(Order(spec), rows);
      SortCount(Order(spec), rows);
      SortElements(Order(spec), rows);
      TakeCount(spec.limit.value, sorted);
    }
  }

  /** A row in an answer matches, and comes no more often than the table holds it. */
  lemma AnswerFrom(spec: Spec, col: Col, v: int, x: Row)
    ensures multiset(Answer(spec, col, v))[x] <= multiset(spec.table)[x]
    ensures x in Answer(spec, col, v) ==> Val(x, col) == Some(v) && spec.keep(x) && x in spec.table
    ensures Val(x, col) != Some(v) ==> multiset(Answer(spec, col, v))[x] == 0
  {
    SelectCount(spec.table, Wanted(spec, col, v), x);
    CappedFrom(spec, Matching(spec, col, v), x);
    hide Capped;
  }

  lemma {:induction false} AnswersNone(spec: Spec, col: Col, vs: seq<int>, n: nat, x: Row)
    requires n <= |vs| && forall i | 0 <= i < n :: Val(x, col) != Some(vs[i])
    ensures multiset(Answers(spec, col, vs, n))[x] == 0
  {
    hide Answer;
    if n > 0 {
      AnswersNone(spec, col, vs, n - 1, x);
      AnswerFrom(spec, col, vs[n - 1], x);
    }
  }

  /** Each row comes from the answer of its own key only. */
  lemma {:induction false} AnswersAt(spec: Spec, col: Col, vs: seq<int>, n: nat, i: nat, x: Row)
    requires NoRepeat(vs) && i < n <= |vs| && Val(x, col) == Some(vs[i])
    ensures multiset(Answers(spec, col, vs, n))[x] == multiset(Answer(spec, col, vs[i]))[x]
  {
    hide Answer;
    if i == n - 1 {
      AnswersNone(spec, col, vs, n - 1, x);
    } else {
      AnswersAt(spec, col, vs, n - 1, i, x);
      AnswerFrom(spec, col, vs[n - 1], x);
    }
  }

  // ---- Batches ------------------------------------------------------------------------------

  const BATCH_SIZE: nat := 1000

  /** A row of a batch has a key of that batch and of no other. */
  lemma BatchApart(col: Col, vs: seq<int>, from: nat, end: nat, rows: seq<Row>, part: seq<Row>, v: int)
    requires NoRepeat(vs) && from <= end <= |vs| && v in vs[..end]
    requires Keyed(rows, col, vs[..from]) && Keyed(part, col, vs[from..end])
    ensures Select(rows + part, Having(col, v)) == if v in vs[..from] then Select(rows, Having(col, v)) else Select(part, Having(col, v))
    ensures v !in vs[..from] ==> v in vs[from..end]
  {
    InEither(vs, from, end, v);
    SelectJoined(rows, part, Having(col, v));
    if v in vs[..from] { SelectNone(part, Having(col, v)); } else { SelectNone(rows, Having(col, v)); }
  }

  lemma BatchKeyed(col: Col, vs: seq<int>, from: nat, end: nat, rows: seq<Row>, part: seq<Row>)
    requires from <= end <= |vs| && Keyed(rows, col, vs[..from]) && Keyed(part, col, vs[from..end])
    ensures Keyed(rows + part, col, vs[..end])
  {
    assert vs[..end] == vs[..from] + vs[from..end];
  }

  lemma BatchReturned(spec: Spec, col: Col, vs: seq<int>, from: nat, end: nat, rows: seq<Row>, part: seq<Row>)
    requires NoRepeat(vs) && from <= end <= |vs| && Keyed(rows, col, vs[..from]) && Keyed(part, col, vs[from..end])
    requires AllReturned(spec, col, vs[..from], rows) && AllReturned(spec, col, vs[from..end], part)
    ensures AllReturned(spec, col, vs[..end], rows + part)
  {
    hide Keyed, Select, Returns, Matching, NoRepeat;
    forall v | v in vs[..end] ensures Returns(spec, Matching(spec, col, v), Select(rows + part, Having(col, v))) {
      BatchApart(col, vs, from, end, rows, part, v);
    }
  }

  lemma BatchAnswered(spec: Spec, col: Col, vs: seq<int>, from: nat, end: nat, rows: seq<Row>, part: seq<Row>)
    requires NoRepeat(vs) && from <= end <= |vs| && Keyed(rows, col, vs[..from]) && Keyed(part, col, vs[from..end])
    requires AllAnswered(spec, col, vs[..from], rows) && AllAnswered(spec, col, vs[from..end], part)
    ensures AllAnswered(spec, col, vs[..end], rows + part)
  {
    hide Keyed, Select, Answer, NoRepeat;
    forall v | v in vs[..end] ensures multiset(Select(rows + part, Having(col, v))) == multiset(Answer(spec, col, v)) {
      BatchApart(col, vs, from, end, rows, part, v);
    }
  }

  lemma NothingQueried(spec: Spec, col: Col, vs: seq<int>)
    requires vs == []
    ensures Keyed([], col, vs) && AllReturned(spec, col, vs, []) && AllAnswered(spec, col, vs, [])
  {
  }

  /**
   * One statement for each thousand keys. Each key has rows its own query may return; a limit without an order takes the first rows
   * by primary key, unless a key is left over for a statement of its own.
   */
  method QueryByColumn(spec: Spec, col: Col, values: seq<int>, shuffle: seq<Row> -> seq<Row>) returns (rows: seq<Row>)
    requires Proper(spec) && NoRepeat(values) && Shuffles(shuffle)
    ensures Keyed(rows, col, values) && AllReturned(spec, col, values, rows)
    ensures !spec.ordered && |values| % BATCH_SIZE != 1 ==> AllAnswered(spec, col, values, rows)
  {
    hide Shuffles, Keyed, AllReturned, AllAnswered, NoRepeat, Proper;
    rows := [];
    var i := 0;
    NothingQueried(spec, col, values[..0]);
    while i < |values|
      invariant 0 <= i <= |values| && (i % BATCH_SIZE == 0 || i == |values|)
      invariant Keyed(rows, col, values[..i]) && AllReturned(spec, col, values[..i], rows)
      invariant !spec.ordered && |values| % BATCH_SIZE != 1 ==> AllAnswered(spec, col, values[..i], rows)
    {
      var end := if i + BATCH_SIZE > |values| then |values| else i + BATCH_SIZE;
      var batch := values[i..end];
      var part := QueryBatch(spec, col, batch, shuffle);
      BatchKeyed(col, values, i, end, rows, part);
      BatchReturned(spec, col, values, i, end, rows, part);
      if !spec.ordered && |values| % BATCH_SIZE != 1 { BatchAnswered(spec, col, values, i, end, rows, part); }
      rows := rows + part;
      i := end;
    }
    assert values[..|values|] == values;
  }

  // ---- Whole results ------------------------------------------------------------------------

  /** A row comes back once. */
  lemma ReturnedOnce(spec: Spec, col: Col, vs: seq<int>, related: seq<Row>, r: Row)
    requires DistinctKeys(spec.table) && Keyed(related, col, vs) && AllReturned(spec, col, vs, related)
    ensures multiset(related)[r] <= 1 && (r in related ==> r in spec.table)
  {
    if r in related {
      var v := Val(r, col).value;
      var group := Select(related, Having(col, v));
      SelectCount(related, Having(col, v), r);
      MatchingOnce(spec, col, v, r);
      ReturnedFirst(spec, Matching(spec, col, v), group);
      assert r in multiset(group);
      assert r in Matching(spec, col, v);
    }
  }

  /** Rows of a table that come once each have keys of their own. */
  lemma OnceIsDistinct(spec: Spec, related: seq<Row>)
    requires DistinctKeys(spec.table) && forall r :: multiset(related)[r] <= 1 && (r in related ==> r in spec.table)
    ensures DistinctKeys(related)
  {
    forall i, j | 0 <= i < j < |related| ensures related[i].pk != related[j].pk {
      if related[i] == related[j] { TwoPlaces(related, i, j); }
      assert related[i] in related && related[j] in related;
    }
  }

  lemma {:induction false} SameCount(rows: seq<Row>, x: Row)
    requires forall y | y in rows :: y == x
    ensures multiset(rows)[x] == |rows|
  {
    if rows != [] {
      assert rows == [rows[0]] + rows[1..];
      forall y | y in rows[1..] ensures y == x { assert y in rows; }
      SameCount(rows[1..], x);
      assert rows[0] in rows;
    }
  }

  lemma PkMatchesOne(spec: Spec, v: int)
    requires DistinctKeys(spec.table)
    ensures |Matching(spec, Pk, v)| <= 1
  {
    var all := Matching(spec, Pk, v);
    if all != [] {
      forall y | y in all ensures y == all[0] {
        assert all[0] in all;
        var i :| 0 <= i < |spec.table| && spec.table[i] == y;
        var j :| 0 <= j < |spec.table| && spec.table[j] == all[0];
      }
      MatchingOnce(spec, Pk, v, all[0]);
      SameCount(all, all[0]);
    }
  }

  /** On the primary key the rows that come back are the answers of the keys. */
  lemma PkAnswers(spec: Spec, vs: seq<int>, related: seq<Row>)
    requires DistinctKeys(spec.table) && NoRepeat(vs) && Keyed(related, Pk, vs) && AllReturned(spec, Pk, vs, related)
    ensures multiset(related) == multiset(Answers(spec, Pk, vs, |vs|))
  {
    forall x ensures multiset(related)[x] == multiset(Answers(spec, Pk, vs, |vs|))[x] { PkAnswer(spec, vs, related, x); }
  }

  lemma PkAnswer(spec: Spec, vs: seq<int>, related: seq<Row>, x: Row)
    requires DistinctKeys(spec.table) && NoRepeat(vs) && Keyed(related, Pk, vs) && AllReturned(spec, Pk, vs, related)
    ensures multiset(related)[x] == multiset(Answers(spec, Pk, vs, |vs|))[x]
  {
    if x.pk in vs {
      var i :| 0 <= i < |vs| && vs[i] == x.pk;
      AnswersAt(spec, Pk, vs, |vs|, i, x);
      PkMatchesOne(spec, x.pk);
      OneReturned(spec, Matching(spec, Pk, x.pk), Select(related, Having(Pk, x.pk)));
      SelectCount(related, Having(Pk, x.pk), x);
    } else {
      AnswersNone(spec, Pk, vs, |vs|, x);
      assert x !in related;
    }
    hide Answers, Returns;
  }

  // ---- Grouping -----------------------------------------------------------------------------

  lemma {:induction false} SelectMore(rows: seq<Row>, x: Row, p: Row -> bool)
    ensures Select(rows + [x], p) == Select(rows, p) + if p(x) then [x] else []
  {
    if rows == [] {
      assert rows + [x] == [x];
    } else {
      assert (rows + [x])[1..] == rows[1..] + [x];
      SelectMore(rows[1..], x, p);
    }
  }

  /** The rows of each key, in the order they came. */
  ghost predicate Grouped(groups: map<int, seq<Row>>, rows: seq<Row>, col: Col) {
    forall v: int :: Select(rows, Having(col, v)) == if v in groups then groups[v] else []
  }

  lemma GroupedMore(groups: map<int, seq<Row>>, rows: seq<Row>, col: Col, x: Row, v: int)
    requires Grouped(groups, rows, col) && Val(x, col) == Some(v)
    ensures Grouped(groups[v := (if v in groups then groups[v] else []) + [x]], rows + [x], col)
  {
    forall w: int { SelectMore(rows, x, Having(col, w)); }
  }

  lemma GroupedNull(groups: map<int, seq<Row>>, rows: seq<Row>, col: Col, x: Row)
    requires Grouped(groups, rows, col) && Val(x, col).None?
    ensures Grouped(groups, rows + [x], col)
  {
    forall w: int { SelectMore(rows, x, Having(col, w)); }
  }

  method GroupBy(rows: seq<Row>, col: Col) returns (groups: map<int, seq<Row>>)
    ensures Grouped(groups, rows, col)
  {
    groups := map[];
    assert Grouped(groups, [], col);
    hide Grouped;
    for i := 0 to |rows|
      invariant Grouped(groups, rows[..i], col)
    {
      assert rows[..i + 1] == rows[..i] + [rows[i]];
      var v := Val(rows[i], col);
      if v.Some? {
        GroupedMore(groups, rows[..i], col, rows[i], v.value);
        groups := groups[v.value := (if v.value in groups then groups[v.value] else []) + [rows[i]]];
      } else {
        GroupedNull(groups, rows[..i], col, rows[i]);
      }
    }
    assert rows[..|rows|] == rows;
  }

  /** What a batch brings for one key is what a query of that key alone brings. */
  lemma GroupIsAnswer(spec: Spec, col: Col, vs: seq<int>, i: nat, related: seq<Row>)
    requires NoRepeat(vs) && i < |vs| && multiset(related) == multiset(Answers(spec, col, vs, |vs|))
    ensures multiset(Select(related, Having(col, vs[i]))) == multiset(Answer(spec, col, vs[i]))
  {
    forall x ensures multiset(Select(related, Having(col, vs[i])))[x] == multiset(Answer(spec, col, vs[i]))[x] {
      SelectCount(related, Having(col, vs[i]), x);
      AnswerFrom(spec, col, vs[i], x);
      if Val(x, col) == Some(vs[i]) { AnswersAt(spec, col, vs, |vs|, i, x); }
    }
  }

  // ---- Has-many, has-one, belongs-to --------------------------------------------------------

  function KeysOf(parents: seq<Row>): (vs: seq<int>)
    ensures |vs| == |parents| && forall i | 0 <= i < |vs| :: vs[i] == parents[i].pk
  {
    seq(|parents|, i requires 0 <= i < |parents| => parents[i].pk)
  }

  /** A single-valued relation takes one of the matching rows, and none only when there is none. */
  predicate OneOf(given: seq<Row>, answer: seq<Row>) {
    if answer == [] then given == [] else |given| == 1 && given[0] in answer
  }

  function LastOf(rows: seq<Row>): seq<Row> { if rows == [] then [] else [rows[|rows| - 1]] }

  lemma LastIsOne(group: seq<Row>, answer: seq<Row>)
    requires multiset(group) == multiset(answer)
    ensures OneOf(LastOf(group), answer)
  {
    assert |multiset(group)| == |group| && |multiset(answer)| == |answer|;
    if group != [] { assert group[|group| - 1] in multiset(answer); }
  }

  type Assigned = map<int, seq<Row>>

  /** Each parent has what came back under its key. */
  ghost predicate GivenGroups(parents: seq<Row>, spec: Spec, given: Assigned, related: seq<Row>) {
    forall p | p in parents :: p.pk in given && given[p.pk] == Select(related, Having(Fk(spec.fk), p.pk))
  }

  /** ... or the last of it. */
  ghost predicate GivenLast(parents: seq<Row>, spec: Spec, given: Assigned, related: seq<Row>) {
    forall p | p in parents :: p.pk in given && given[p.pk] == LastOf(Select(related, Having(Fk(spec.fk), p.pk)))
  }

  /** What came back is, key by key, what a query for the key alone may return. */
  ghost predicate Brought(parents: seq<Row>, spec: Spec, related: seq<Row>) {
    Keyed(related, Fk(spec.fk), KeysOf(parents)) && AllReturned(spec, Fk(spec.fk), KeysOf(parents), related)
  }

  lemma BroughtTo(parents: seq<Row>, spec: Spec, related: seq<Row>, p: Row)
    requires Brought(parents, spec, related) && p in parents
    ensures Returns(spec, Matching(spec, Fk(spec.fk), p.pk), Select(related, Having(Fk(spec.fk), p.pk)))
  {
    var i :| 0 <= i < |parents| && parents[i] == p;
    assert KeysOf(parents)[i] == p.pk;
  }

  method FetchGroups(parents: seq<Row>, spec: Spec, shuffle: seq<Row> -> seq<Row>) returns (groups: map<int, seq<Row>>, related: seq<Row>)
    requires DistinctKeys(parents) && Proper(spec) && Shuffles(shuffle)
    ensures Grouped(groups, related, Fk(spec.fk)) && Brought(parents, spec, related)
    ensures !spec.ordered && |parents| % BATCH_SIZE != 1 ==> AllAnswered(spec, Fk(spec.fk), KeysOf(parents), related)
  {
    hide Shuffles, Grouped, Select, Keyed, AllReturned, AllAnswered, Proper;
    related := QueryByColumn(spec, Fk(spec.fk), KeysOf(parents), shuffle);
    groups := GroupBy(related, Fk(spec.fk));
  }

  lemma AnsweredTo(parents: seq<Row>, spec: Spec, related: seq<Row>, p: Row)
    requires AllAnswered(spec, Fk(spec.fk), KeysOf(parents), related) && p in parents
    ensures multiset(Select(related, Having(Fk(spec.fk), p.pk))) == multiset(Answer(spec, Fk(spec.fk), p.pk))
  {
    var i :| 0 <= i < |parents| && parents[i] == p;
    assert KeysOf(parents)[i] == p.pk;
  }

  /** What a has-many gives a parent: rows its own query may return, the first ones if there is a limit, and the answer if that is settled. */
  ghost predicate HasItsOwn(spec: Spec, p: Row, keys: nat, rows: seq<Row>) {
    && Returns(spec, Matching(spec, Fk(spec.fk), p.pk), rows)
    && First(spec, Matching(spec, Fk(spec.fk), p.pk), rows)
    && (Settled(spec, Fk(spec.fk), p.pk, keys) ==> multiset(rows) == multiset(Answer(spec, Fk(spec.fk), p.pk)))
  }

  /** No limit, an order that leaves no two rows of the key in doubt, or no order and no statement for a single key. */
  ghost predicate Settled(spec: Spec, col: Col, v: int, keys: nat) {
    spec.limit.None? || if spec.ordered then TotalOn(spec.before, Matching(spec, col, v)) else keys % BATCH_SIZE != 1
  }

  lemma GroupIsOwn(parents: seq<Row>, spec: Spec, related: seq<Row>, p: Row)
    requires Proper(spec) && Brought(parents, spec, related) && p in parents
    requires !spec.ordered && |parents| % BATCH_SIZE != 1 ==> AllAnswered(spec, Fk(spec.fk), KeysOf(parents), related)
    ensures HasItsOwn(spec, p, |parents|, Select(related, Having(Fk(spec.fk), p.pk)))
  {
    var col, rows := Fk(spec.fk), Select(related, Having(Fk(spec.fk), p.pk));
    BroughtTo(parents, spec, related, p);
    if !spec.ordered && |parents| % BATCH_SIZE != 1 { AnsweredTo(parents, spec, related, p); }
    hide Matching, Select, Returns, Answer, AllAnswered, First, Brought;
    ReturnedFirst(spec, Matching(spec, col, p.pk), rows);
    if spec.limit.None? || (spec.ordered && TotalOn(spec.before, Matching(spec, col, p.pk))) { ReturnedAnswer(spec, col, p.pk, rows); }
  }

  method LoadHasMany(parents: seq<Row>, spec: Spec, shuffle: seq<Row> -> seq<Row>) returns (given: Assigned, related: seq<Row>)
    requires DistinctKeys(parents) && Proper(spec) && Shuffles(shuffle)
    ensures Brought(parents, spec, related) && GivenGroups(parents, spec, given, related)
    ensures forall p | p in parents :: HasItsOwn(spec, p, |parents|, given[p.pk])
  {
    hide Shuffles, Select, Brought, HasItsOwn, AllAnswered, Proper;
    var groups;
    groups, related := FetchGroups(parents, spec, shuffle);
    given := map[];
    for i := 0 to |parents|
      invariant forall j | 0 <= j < i :: parents[j].pk in given && given[parents[j].pk] == Select(related, Having(Fk(spec.fk), parents[j].pk))
    {
      var v := parents[i].pk;
      assert Select(related, Having(Fk(spec.fk), v)) == if v in groups then groups[v] else [];
      given := given[v := if v in groups then groups[v] else []];
    }
    forall p | p in parents ensures HasItsOwn(spec, p, |parents|, given[p.pk]) { GroupIsOwn(parents, spec, related, p); }
  }

  /** Which of the rows with one key a map from keys to rows ends up holding: the last. */
  method LoadHasOne(parents: seq<Row>, spec: Spec, shuffle: seq<Row> -> seq<Row>) returns (given: Assigned, related: seq<Row>)
    requires DistinctKeys(parents) && Proper(spec) && Shuffles(shuffle)
    ensures Brought(parents, spec, related) && GivenLast(parents, spec, given, related)
    ensures spec.limit != Some(0) ==> forall p | p in parents :: OneOf(given[p.pk], Matching(spec, Fk(spec.fk), p.pk))
  {
    hide Shuffles, Select, Brought, OneOf, AllAnswered, Matching, Proper;
    var groups;
    groups, related := FetchGroups(parents, spec, shuffle);
    given := map[];
    for i := 0 to |parents|
      invariant forall j | 0 <= j < i ::
                  parents[j].pk in given && given[parents[j].pk] == LastOf(Select(related, Having(Fk(spec.fk), parents[j].pk)))
    {
      var v := parents[i].pk;
      assert Select(related, Having(Fk(spec.fk), v)) == if v in groups then groups[v] else [];
      given := given[v := LastOf(if v in groups then groups[v] else [])];
    }
    if spec.limit != Some(0) {
      forall p | p in parents ensures OneOf(given[p.pk], Matching(spec, Fk(spec.fk), p.pk)) {
        BroughtTo(parents, spec, related, p);
        LastReturned(spec, Matching(spec, Fk(spec.fk), p.pk), Select(related, Having(Fk(spec.fk), p.pk)));
      }
    }
  }

  lemma LastReturned(spec: Spec, all: seq<Row>, got: seq<Row>)
    requires spec.limit != Some(0) && Returns(spec, all, got)
    ensures OneOf(LastOf(got), all)
  {
    ReturnedFirst(spec, all, got);
    if got != [] { assert got[|got| - 1] in multiset(got); }
    assert forall x :: x in all <==> x in multiset(all);
  }

  /** Appends a value that is not there yet. */
  method Dedup(vs: seq<int>) returns (once: seq<int>)
    ensures NoRepeat(once) && forall v :: v in once <==> v in vs
  {
    once := [];
    for i := 0 to |vs|
      invariant NoRepeat(once) && forall v :: v in once <==> v in vs[..i]
    {
      assert vs[..i + 1] == vs[..i] + [vs[i]];
      if vs[i] !in once { once := once + [vs[i]]; }
    }
    assert vs[..|vs|] == vs;
  }

  /** The foreign keys of the parents that have one. */
  function ForeignKeys(parents: seq<Row>, col: Col): (vs: seq<int>)
    ensures forall v :: v in vs <==> exists p | p in parents :: Val(p, col) == Some(v)
  {
    if parents == [] then []
    else
      assert forall p :: p in parents <==> p == parents[0] || p in parents[1..];
      (if Val(parents[0], col).Some? then [Val(parents[0], col).value] else []) + ForeignKeys(parents[1..], col)
  }

  /** The row a parent's foreign key points at, if the include lets it through. */
  function Target(spec: Spec, p: Row): seq<Row> {
    match Val(p, Fk(spec.fk)) case None => [] case Some(v) => Answer(spec, Pk, v)
  }

  method LoadBelongsTo(parents: seq<Row>, spec: Spec, shuffle: seq<Row> -> seq<Row>)
    returns (given: Assigned, related: seq<Row>, ghost vs: seq<int>)
    requires DistinctKeys(parents) && Proper(spec) && Shuffles(shuffle)
    ensures forall p | p in parents :: p.pk in given && OneOf(given[p.pk], Target(spec, p))
    ensures NoRepeat(vs) && multiset(related) == multiset(Answers(spec, Pk, vs, |vs|))
    ensures forall v :: v in vs <==> exists p | p in parents :: Val(p, Fk(spec.fk)) == Some(v)
  {
    var fks := ForeignKeys(parents, Fk(spec.fk));
    var values := Dedup(fks);
    vs := values;
    hide *;
    related := QueryByPk(spec, values, shuffle);
    var groups := GroupBy(related, Pk);
    given := GiveTargets(parents, spec, groups, related, vs);
  }

  /** What a query on the primary key returns is settled: one row for a key at most. */
  method QueryByPk(spec: Spec, values: seq<int>, shuffle: seq<Row> -> seq<Row>) returns (rows: seq<Row>)
    requires Proper(spec) && NoRepeat(values) && Shuffles(shuffle)
    ensures multiset(rows) == multiset(Answers(spec, Pk, values, |values|))
  {
    assert DistinctKeys(spec.table);
    hide *;
    rows := QueryByColumn(spec, Pk, values, shuffle);
    PkAnswers(spec, values, rows);
  }

  lemma TargetIsOne(spec: Spec, p: Row, groups: map<int, seq<Row>>, related: seq<Row>, vs: seq<int>, v: int)
    requires NoRepeat(vs) && v in vs && Val(p, Fk(spec.fk)) == Some(v)
    requires Grouped(groups, related, Pk) && multiset(related) == multiset(Answers(spec, Pk, vs, |vs|))
    ensures OneOf(LastOf(if v in groups then groups[v] else []), Target(spec, p))
  {
    hide Answer, Answers, Select;
    var i :| 0 <= i < |vs| && vs[i] == v;
    GroupIsAnswer(spec, Pk, vs, i, related);
    assert Select(related, Having(Pk, v)) == if v in groups then groups[v] else [];
    LastIsOne(if v in groups then groups[v] else [], Answer(spec, Pk, v));
  }

  method GiveTargets(parents: seq<Row>, spec: Spec, groups: map<int, seq<Row>>, ghost related: seq<Row>, ghost vs: seq<int>)
    returns (given: Assigned)
    requires DistinctKeys(parents) && NoRepeat(vs) && forall v :: v in vs <==> exists p | p in parents :: Val(p, Fk(spec.fk)) == Some(v)
    requires Grouped(groups, related, Pk) && multiset(related) == multiset(Answers(spec, Pk, vs, |vs|))
    ensures forall p | p in parents :: p.pk in given && OneOf(given[p.pk], Target(spec, p))
  {
    hide Answer, Answers, Select, Grouped, OneOf, NoRepeat, Target;
    given := map[];
    for i := 0 to |parents|
      invariant forall j | 0 <= j < i :: parents[j].pk in given && OneOf(given[parents[j].pk], Target(spec, parents[j]))
    {
      var p := parents[i];
      assert p in parents;
      var fk := Val(p, Fk(spec.fk));
      if fk.Some? {
        TargetIsOne(spec, p, groups, related, vs, fk.value);
        given := given[p.pk := LastOf(if fk.value in groups then groups[fk.value] else [])];
      } else {
        NoTarget(spec, p);
        given := given[p.pk := []];
      }
    }
  }

  lemma NoTarget(spec: Spec, p: Row)
    requires Val(p, Fk(spec.fk)).None?
    ensures OneOf([], Target(spec, p))
  {
  }

  // ---- Many-to-many -------------------------------------------------------------------------

  type Pivot = seq<(int, int)>

  /** The join of one parent: for each of its pivot rows the target it names. */
  function Joined(spec: Spec, source: int, n: nat): seq<Row>
    requires n <= |spec.pivot|
  {
    if n == 0 then []
    else Joined(spec, source, n - 1) + JoinedBy(spec, source, spec.pivot[n - 1])
  }

  function Times(pivot: Pivot, pair: (int, int), n: nat): nat
    requires n <= |pivot|
  {
    if n == 0 then 0 else Times(pivot, pair, n - 1) + if pivot[n - 1] == pair then 1 else 0
  }

  /** Multiplication by repeated addition. */
  function Mul(a: nat, b: nat): nat { if a == 0 then 0 else Mul(a - 1, b) + b }

  lemma {:induction false} MulSwaps(a: nat, b: nat)
    ensures Mul(a, b) == Mul(b, a)
  {
    MulIsProduct(a, b);
    MulIsProduct(b, a);
  }

  lemma {:induction false} MulIsProduct(a: nat, b: nat)
    ensures Mul(a, b) == a * b
  {
    if a > 0 { MulIsProduct(a - 1, b); }
  }

  /** What one pivot row brings a source. */
  function JoinedBy(spec: Spec, source: int, pair: (int, int)): seq<Row> {
    if pair.0 == source then Answer(spec, Pk, pair.1) else []
  }

  lemma JoinedByCount(spec: Spec, source: int, pair: (int, int), x: Row)
    ensures multiset(JoinedBy(spec, source, pair))[x] == if pair == (source, x.pk) then multiset(Answer(spec, Pk, x.pk))[x] else 0
  {
    AnswerFrom(spec, Pk, pair.1, x);
  }

  lemma {:induction false} JoinedCount(spec: Spec, source: int, n: nat, x: Row)
    requires n <= |spec.pivot|
    ensures multiset(Joined(spec, source, n))[x] == Mul(Times(spec.pivot, (source, x.pk), n), multiset(Answer(spec, Pk, x.pk))[x])
  {
    hide Answer, JoinedBy;
    if n > 0 {
      JoinedCount(spec, source, n - 1, x);
      JoinedByCount(spec, source, spec.pivot[n - 1], x);
    }
  }

  /** One target given to a source once for each of their pivot rows. */
  function Attach(t: Row, pivot: Pivot, source: int, n: nat): seq<Row>
    requires n <= |pivot|
  {
    if n == 0 then [] else Attach(t, pivot, source, n - 1) + if pivot[n - 1] == (source, t.pk) then [t] else []
  }

  function Attached(targets: seq<Row>, pivot: Pivot, source: int, m: nat): seq<Row>
    requires m <= |targets|
  {
    if m == 0 then [] else Attached(targets, pivot, source, m - 1) + Attach(targets[m - 1], pivot, source, |pivot|)
  }

  lemma {:induction false} AttachCount(t: Row, pivot: Pivot, source: int, n: nat, x: Row)
    requires n <= |pivot|
    ensures multiset(Attach(t, pivot, source, n))[x] == if x == t then Times(pivot, (source, t.pk), n) else 0
  {
    if n > 0 { AttachCount(t, pivot, source, n - 1, x); }
  }

  function Occurs(rows: seq<Row>, x: Row, n: nat): nat
    requires n <= |rows|
  {
    if n == 0 then 0 else Occurs(rows, x, n - 1) + if rows[n - 1] == x then 1 else 0
  }

  lemma {:induction false} OccursIsCount(rows: seq<Row>, x: Row, n: nat)
    requires n <= |rows|
    ensures Occurs(rows, x, n) == multiset(rows[..n])[x]
  {
    if n > 0 {
      OccursIsCount(rows, x, n - 1);
      assert rows[..n] == rows[..n - 1] + [rows[n - 1]];
    }
  }

  lemma {:induction false} AttachedCount(targets: seq<Row>, pivot: Pivot, source: int, m: nat, x: Row)
    requires m <= |targets|
    ensures multiset(Attached(targets, pivot, source, m))[x] == Mul(Occurs(targets, x, m), Times(pivot, (source, x.pk), |pivot|))
  {
    hide Attach, Times;
    if m > 0 {
      AttachedCount(targets, pivot, source, m - 1, x);
      AttachCount(targets[m - 1], pivot, source, |pivot|, x);
    }
  }

  function SelectPairs(pivot: Pivot, sources: seq<int>): Pivot {
    if pivot == [] then [] else (if pivot[0].0 in sources then [pivot[0]] else []) + SelectPairs(pivot[1..], sources)
  }

  function Copies(pivot: Pivot, pair: (int, int)): nat { Times(pivot, pair, |pivot|) }

  lemma {:induction false} TimesJoined(a: Pivot, b: Pivot, pair: (int, int), n: nat)
    requires n <= |b|
    ensures Times(a + b, pair, |a| + n) == Copies(a, pair) + Times(b, pair, n)
  {
    if n == 0 {
      TimesPrefix(a, a + b, pair, |a|);
    } else {
      TimesJoined(a, b, pair, n - 1);
    }
  }

  lemma {:induction false} TimesPrefix(a: Pivot, b: Pivot, pair: (int, int), n: nat)
    requires n <= |a| && n <= |b| && forall i | 0 <= i < n :: a[i] == b[i]
    ensures Times(a, pair, n) == Times(b, pair, n)
  {
    if n > 0 { TimesPrefix(a, b, pair, n - 1); }
  }

  lemma {:induction false} PairsSelected(pivot: Pivot, sources: seq<int>, pair: (int, int))
    ensures Copies(SelectPairs(pivot, sources), pair) == if pair.0 in sources then Copies(pivot, pair) else 0
  {
    if pivot != [] {
      PairsSelected(pivot[1..], sources, pair);
      var first := if pivot[0].0 in sources then [pivot[0]] else [];
      TimesJoined([pivot[0]], pivot[1..], pair, |pivot[1..]|);
      TimesJoined(first, SelectPairs(pivot[1..], sources), pair, |SelectPairs(pivot[1..], sources)|);
      assert pivot == [pivot[0]] + pivot[1..];
      assert Copies([pivot[0]], pair) == Times([pivot[0]], pair, 0) + if pivot[0] == pair then 1 else 0;
    }
  }

  lemma {:induction false} CopiedIsThere(pivot: Pivot, pair: (int, int), n: nat)
    requires n <= |pivot|
    ensures Times(pivot, pair, n) > 0 ==> pair in pivot
  {
    if n > 0 { CopiedIsThere(pivot, pair, n - 1); }
  }

  /** The pivot rows of the parents, a batch of them at a time. */
  method LoadPivot(pivot: Pivot, sources: seq<int>) returns (rows: Pivot)
    requires NoRepeat(sources)
    ensures forall pair :: Copies(rows, pair) == if pair.0 in sources then Copies(pivot, pair) else 0
  {
    rows := [];
    var i := 0;
    while i < |sources|
      invariant 0 <= i <= |sources|
      invariant forall pair :: Copies(rows, pair) == if pair.0 in sources[..i] then Copies(pivot, pair) else 0
    {
      var end := if i + BATCH_SIZE > |sources| then |sources| else i + BATCH_SIZE;
      var batch := sources[i..end];
      var part := SelectPairs(pivot, batch);
      forall pair ensures Copies(rows + part, pair) == if pair.0 in sources[..end] then Copies(pivot, pair) else 0 {
        PairsSelected(pivot, batch, pair);
        TimesJoined(rows, part, pair, |part|);
        InEither(sources, i, end, pair.0);
      }
      rows := rows + part;
      i := end;
    }
    assert sources[..|sources|] == sources;
  }

  lemma InEither(vs: seq<int>, i: nat, end: nat, v: int)
    requires i <= end <= |vs| && NoRepeat(vs)
    ensures v in vs[..end] <==> v in vs[..i] || v in vs[i..end]
    ensures !(v in vs[..i] && v in vs[i..end])
  {
    assert vs[..end] == vs[..i] + vs[i..end];
  }

  function GroupOf(groups: map<int, seq<Row>>, v: int): seq<Row> { if v in groups then groups[v] else [] }

  /** The groups after m targets, and k pivot rows of the next. */
  ghost predicate GroupsAfter(groups: map<int, seq<Row>>, targets: seq<Row>, pivot: Pivot, m: nat, k: nat)
    requires m <= |targets| && k <= |pivot|
  {
    forall v: int :: GroupOf(groups, v) ==
                     Attached(targets, pivot, v, m) + if m < |targets| then Attach(targets[m], pivot, v, k) else []
  }

  lemma NextPair(groups: map<int, seq<Row>>, targets: seq<Row>, pivot: Pivot, m: nat, k: nat)
    requires m < |targets| && k < |pivot| && GroupsAfter(groups, targets, pivot, m, k)
    ensures var (source, target) := pivot[k];
            var next := if target == targets[m].pk then groups[source := GroupOf(groups, source) + [targets[m]]] else groups;
            GroupsAfter(next, targets, pivot, m, k + 1)
  {
    var (source, target) := pivot[k];
    var next := if target == targets[m].pk then groups[source := GroupOf(groups, source) + [targets[m]]] else groups;
    forall v: int ensures GroupOf(next, v) == Attached(targets, pivot, v, m) + Attach(targets[m], pivot, v, k + 1) {
      assert GroupOf(groups, v) == Attached(targets, pivot, v, m) + Attach(targets[m], pivot, v, k);
    }
  }

  lemma NextTarget(groups: map<int, seq<Row>>, targets: seq<Row>, pivot: Pivot, m: nat)
    requires m < |targets| && GroupsAfter(groups, targets, pivot, m, |pivot|)
    ensures GroupsAfter(groups, targets, pivot, m + 1, 0)
  {
    forall v: int ensures GroupOf(groups, v) ==
      Attached(targets, pivot, v, m + 1) + if m + 1 < |targets| then Attach(targets[m + 1], pivot, v, 0) else []
    {
      assert GroupOf(groups, v) == Attached(targets, pivot, v, m) + Attach(targets[m], pivot, v, |pivot|);
    }
  }

  /** Walks the targets in query order and gives each to every source that names it. */
  method GroupTargets(targets: seq<Row>, pivot: Pivot) returns (groups: map<int, seq<Row>>)
    ensures forall v: int :: GroupOf(groups, v) == Attached(targets, pivot, v, |targets|)
  {
    groups := map[];
    assert GroupsAfter(groups, targets, pivot, 0, 0);
    for m := 0 to |targets|
      invariant GroupsAfter(groups, targets, pivot, m, 0)
    {
      groups := GiveTarget(groups, targets, pivot, m);
    }
    forall v: int ensures GroupOf(groups, v) == Attached(targets, pivot, v, |targets|) { }
  }

  method GiveTarget(groups0: map<int, seq<Row>>, targets: seq<Row>, pivot: Pivot, m: nat) returns (groups: map<int, seq<Row>>)
    requires m < |targets| && GroupsAfter(groups0, targets, pivot, m, 0)
    ensures GroupsAfter(groups, targets, pivot, m + 1, 0)
  {
    hide GroupsAfter;
    groups := groups0;
    for k := 0 to |pivot|
      invariant GroupsAfter(groups, targets, pivot, m, k)
    {
      NextPair(groups, targets, pivot, m, k);
      var (source, target) := pivot[k];
      if target == targets[m].pk { groups := groups[source := GroupOf(groups, source) + [targets[m]]]; }
    }
    NextTarget(groups, targets, pivot, m);
  }

  function TargetKeys(pivot: Pivot): (vs: seq<int>)
    ensures |vs| == |pivot| && forall i | 0 <= i < |vs| :: vs[i] == pivot[i].1
  {
    seq(|pivot|, i requires 0 <= i < |pivot| => pivot[i].1)
  }

  lemma {:induction false} PairHere(pivot: Pivot, pair: (int, int))
    ensures Copies(pivot, pair) > 0 ==> pair.1 in TargetKeys(pivot)
  {
    CopiedIsThere(pivot, pair, |pivot|);
    if pair in pivot {
      var i :| 0 <= i < |pivot| && pivot[i] == pair;
      assert TargetKeys(pivot)[i] == pair.1;
    }
  }

  lemma HereIsPair(pivot: Pivot, i: nat)
    requires i < |pivot|
    ensures Copies(pivot, pivot[i]) > 0
  {
    TimesAt(pivot, i, |pivot|);
  }

  lemma {:induction false} TimesAt(pivot: Pivot, i: nat, n: nat)
    requires i < n <= |pivot|
    ensures Times(pivot, pivot[i], n) > 0
  {
    if i < n - 1 { TimesAt(pivot, i, n - 1); }
  }

  /** The targets of a batch, given out along the pivot rows, are each parent's own join. */
  lemma AttachedIsJoined(spec: Spec, source: int, vs: seq<int>, targets: seq<Row>, pivot: Pivot, x: Row)
    requires NoRepeat(vs) && multiset(targets) == multiset(Answers(spec, Pk, vs, |vs|))
    requires Copies(pivot, (source, x.pk)) == Copies(spec.pivot, (source, x.pk))
    requires forall pair :: Copies(pivot, pair) > 0 ==> pair.1 in vs
    ensures multiset(Attached(targets, pivot, source, |targets|))[x] == multiset(Joined(spec, source, |spec.pivot|))[x]
  {
    var copies := Copies(pivot, (source, x.pk));
    AttachedCount(targets, pivot, source, |targets|, x);
    JoinedCount(spec, source, |spec.pivot|, x);
    OccursIsCount(targets, x, |targets|);
    assert targets[..|targets|] == targets;
    hide Attached, Joined, Answer, Answers, Times, Occurs;
    if x.pk in vs {
      var i :| 0 <= i < |vs| && vs[i] == x.pk;
      AnswersAt(spec, Pk, vs, |vs|, i, x);
      MulSwaps(copies, multiset(targets)[x]);
    } else {
      assert copies == 0;
      AnswersNone(spec, Pk, vs, |vs|, x);
    }
  }

  method LoadManyToMany(parents: seq<Row>, spec: Spec, shuffle: seq<Row> -> seq<Row>)
    returns (given: Assigned, related: seq<Row>, ghost vs: seq<int>)
    requires DistinctKeys(parents) && Proper(spec) && Shuffles(shuffle)
    ensures forall p | p in parents :: p.pk in given && multiset(given[p.pk]) == multiset(Joined(spec, p.pk, |spec.pivot|))
    ensures NoRepeat(vs) && multiset(related) == multiset(Answers(spec, Pk, vs, |vs|))
    ensures forall v :: v in vs <==> exists source: int :: source in KeysOf(parents) && Copies(spec.pivot, (source, v)) > 0
  {
    hide Joined, Answers, Answer, Attached, Copies, Shuffles;
    var pivot := LoadPivot(spec.pivot, KeysOf(parents));
    var values := Dedup(TargetKeys(pivot));
    vs := values;
    related := QueryByPk(spec, values, shuffle);
    var groups := GroupTargets(related, pivot);
    forall pair ensures Copies(pivot, pair) > 0 ==> pair.1 in vs { PairHere(pivot, pair); }
    forall v | v in vs ensures exists source: int :: source in KeysOf(parents) && Copies(spec.pivot, (source, v)) > 0 {
      var i :| 0 <= i < |pivot| && TargetKeys(pivot)[i] == v;
      HereIsPair(pivot, i);
      assert pivot[i] == (pivot[i].0, v);
    }
    given := GiveJoins(parents, spec, related, pivot, groups, vs);
  }

  method GiveJoins(parents: seq<Row>, spec: Spec, ghost related: seq<Row>, ghost pivot: Pivot, groups: map<int, seq<Row>>, ghost vs: seq<int>)
    returns (given: Assigned)
    requires DistinctKeys(parents) && NoRepeat(vs) && multiset(related) == multiset(Answers(spec, Pk, vs, |vs|))
    requires forall v: int :: GroupOf(groups, v) == Attached(related, pivot, v, |related|)
    requires forall pair :: Copies(pivot, pair) == if pair.0 in KeysOf(parents) then Copies(spec.pivot, pair) else 0
    requires forall pair :: Copies(pivot, pair) > 0 ==> pair.1 in vs
    ensures forall p | p in parents :: p.pk in given && multiset(given[p.pk]) == multiset(Joined(spec, p.pk, |spec.pivot|))
  {
    hide Joined, Answers, Answer, Attached, Copies;
    given := map[];
    for i := 0 to |parents|
      invariant forall j | 0 <= j < i ::
                  parents[j].pk in given && multiset(given[parents[j].pk]) == multiset(Joined(spec, parents[j].pk, |spec.pivot|))
    {
      var v := parents[i].pk;
      assert KeysOf(parents)[i] == v;
      forall x ensures multiset(GroupOf(groups, v))[x] == multiset(Joined(spec, v, |spec.pivot|))[x] {
        AttachedIsJoined(spec, v, vs, related, pivot, x);
      }
      given := given[v := GroupOf(groups, v)];
    }
  }

  // ---- The tree -----------------------------------------------------------------------------

  /** What one relation gave each parent, the rows it loaded, and what its nested relations gave those rows. */
  datatype Loaded = Loaded(given: Assigned, related: seq<Row>, nested: seq<Loaded>)

  /** The rows of a relation to one, or to many over a pivot, that one parent's own query brings. */
  function Own(spec: Spec, p: Row): seq<Row> { if spec.kind.BelongsTo? then Target(spec, p) else Joined(spec, p.pk, |spec.pivot|) }

  /** The rows loaded are those some parent's own query brings. */
  ghost predicate LoadsOwn(parents: seq<Row>, spec: Spec, related: seq<Row>) {
    forall r :: r in related <==> exists p | p in parents :: r in Own(spec, p)
  }

  /** One relation, loaded as by one query for each parent. */
  ghost predicate LoadsEach(parents: seq<Row>, spec: Spec, given: Assigned, related: seq<Row>) {
    match spec.kind
    case HasMany => Brought(parents, spec, related) && GivenGroups(parents, spec, given, related)
    case HasOne => Brought(parents, spec, related) && GivenLast(parents, spec, given, related)
    case BelongsTo => LoadsOwn(parents, spec, related) && forall p | p in parents :: p.pk in given && OneOf(given[p.pk], Own(spec, p))
    case ManyToMany => LoadsOwn(parents, spec, related) && forall p | p in parents :: p.pk in given && multiset(given[p.pk]) == multiset(Own(spec, p))
  }

  /** At every level of the tree each parent has what its own query brings, and no row is loaded twice. */
  ghost predicate Refines(parents: seq<Row>, spec: Spec, l: Loaded)
    decreases spec
  {
    && LoadsEach(parents, spec, l.given, l.related)
    && DistinctKeys(l.related)
    && (if spec.nested == [] || l.related == [] then l.nested == []
        else |l.nested| == |spec.nested| && forall j | 0 <= j < |spec.nested| :: Refines(l.related, spec.nested[j], l.nested[j]))
  }

  ghost predicate Sound(spec: Spec)
    decreases spec
  {
    Proper(spec) && forall j | 0 <= j < |spec.nested| :: Sound(spec.nested[j])
  }

  lemma {:induction false} AnswersMember(spec: Spec, col: Col, vs: seq<int>, n: nat, r: Row)
    requires n <= |vs|
    ensures r in Answers(spec, col, vs, n) <==> exists i | 0 <= i < n :: r in Answer(spec, col, vs[i])
  {
    hide Answer;
    if n > 0 { AnswersMember(spec, col, vs, n - 1, r); }
  }

  lemma RelatedRow(spec: Spec, vs: seq<int>, related: seq<Row>, r: Row)
    requires NoRepeat(vs) && multiset(related) == multiset(Answers(spec, Pk, vs, |vs|)) && DistinctKeys(spec.table)
    ensures r in related <==> exists v | v in vs :: r in Answer(spec, Pk, v)
    ensures multiset(related)[r] <= 1 && (r in related ==> r in spec.table)
  {
    var all := Answers(spec, Pk, vs, |vs|);
    assert r in related <==> r in multiset(related);
    assert r in all <==> r in multiset(all);
    AnswersMember(spec, Pk, vs, |vs|, r);
    TableOnce(spec.table, r);
    hide Answers, Answer;
    if i :| 0 <= i < |vs| && r in Answer(spec, Pk, vs[i]) {
      AnswerFrom(spec, Pk, vs[i], r);
      AnswersAt(spec, Pk, vs, |vs|, i, r);
      assert vs[i] in vs;
    } else {
      assert r !in all;
      forall v | v in vs ensures r !in Answer(spec, Pk, v) {
        var i :| 0 <= i < |vs| && vs[i] == v;
      }
    }
  }

  lemma RelatedDistinct(spec: Spec, vs: seq<int>, related: seq<Row>)
    requires NoRepeat(vs) && multiset(related) == multiset(Answers(spec, Pk, vs, |vs|)) && DistinctKeys(spec.table)
    ensures DistinctKeys(related)
  {
    forall r ensures multiset(related)[r] <= 1 && (r in related ==> r in spec.table) { RelatedRow(spec, vs, related, r); }
    hide Answers, Answer;
    OnceIsDistinct(spec, related);
  }

  lemma BroughtDistinct(parents: seq<Row>, spec: Spec, related: seq<Row>)
    requires DistinctKeys(spec.table) && Brought(parents, spec, related)
    ensures DistinctKeys(related)
  {
    hide Keyed, AllReturned;
    forall r ensures multiset(related)[r] <= 1 && (r in related ==> r in spec.table) {
      ReturnedOnce(spec, Fk(spec.fk), KeysOf(parents), related, r);
    }
    OnceIsDistinct(spec, related);
  }

  lemma JoinedRow(spec: Spec, source: int, r: Row)
    ensures r in Joined(spec, source, |spec.pivot|) <==> Copies(spec.pivot, (source, r.pk)) > 0 && r in Answer(spec, Pk, r.pk)
  {
    JoinedCount(spec, source, |spec.pivot|, r);
    MulIsProduct(Copies(spec.pivot, (source, r.pk)), multiset(Answer(spec, Pk, r.pk))[r]);
    assert r in Joined(spec, source, |spec.pivot|) <==> r in multiset(Joined(spec, source, |spec.pivot|));
    assert r in Answer(spec, Pk, r.pk) <==> r in multiset(Answer(spec, Pk, r.pk));
  }

  /** Which primary keys a relation queries. */
  ghost predicate QueriesOf(parents: seq<Row>, spec: Spec, vs: seq<int>) {
    if spec.kind.BelongsTo? then forall v :: v in vs <==> exists p | p in parents :: Val(p, Fk(spec.fk)) == Some(v)
    else forall v :: v in vs <==> exists source: int :: source in KeysOf(parents) && Copies(spec.pivot, (source, v)) > 0
  }

  lemma OwnRow(parents: seq<Row>, spec: Spec, vs: seq<int>, r: Row)
    requires QueriesOf(parents, spec, vs)
    ensures (exists v | v in vs :: r in Answer(spec, Pk, v)) <==> (exists p | p in parents :: r in Own(spec, p))
  {
    if p :| p in parents && r in Own(spec, p) { FromOwn(parents, spec, vs, r, p); }
    if v :| v in vs && r in Answer(spec, Pk, v) { ToOwn(parents, spec, vs, r, v); }
  }

  lemma FromOwn(parents: seq<Row>, spec: Spec, vs: seq<int>, r: Row, p: Row)
    requires QueriesOf(parents, spec, vs) && p in parents && r in Own(spec, p)
    ensures exists v | v in vs :: r in Answer(spec, Pk, v)
  {
    hide Answer, Copies, Joined;
    var i :| 0 <= i < |parents| && parents[i] == p;
    assert KeysOf(parents)[i] == p.pk;
    if spec.kind.BelongsTo? {
      assert Val(p, Fk(spec.fk)).value in vs;
    } else {
      JoinedRow(spec, p.pk, r);
      assert r.pk in vs;
    }
  }

  lemma ToOwn(parents: seq<Row>, spec: Spec, vs: seq<int>, r: Row, v: int)
    requires QueriesOf(parents, spec, vs) && v in vs && r in Answer(spec, Pk, v)
    ensures exists p | p in parents :: r in Own(spec, p)
  {
    AnswerFrom(spec, Pk, v, r);
    hide Answer, Copies, Joined;
    if spec.kind.BelongsTo? {
      var p :| p in parents && Val(p, Fk(spec.fk)) == Some(v);
      assert r in Own(spec, p);
    } else {
      var source: int :| source in KeysOf(parents) && Copies(spec.pivot, (source, v)) > 0;
      var i :| 0 <= i < |parents| && KeysOf(parents)[i] == source;
      JoinedRow(spec, source, r);
      assert parents[i] in parents && r in Own(spec, parents[i]);
    }
  }

  lemma LoadedOwn(parents: seq<Row>, spec: Spec, vs: seq<int>, related: seq<Row>)
    requires QueriesOf(parents, spec, vs) && NoRepeat(vs) && DistinctKeys(spec.table)
    requires multiset(related) == multiset(Answers(spec, Pk, vs, |vs|))
    ensures LoadsOwn(parents, spec, related) && DistinctKeys(related)
  {
    hide Answer, Answers, Own, QueriesOf;
    RelatedDistinct(spec, vs, related);
    forall r ensures r in related <==> exists p | p in parents :: r in Own(spec, p) {
      RelatedRow(spec, vs, related, r);
      OwnRow(parents, spec, vs, r);
    }
  }

  method LoadOne(parents: seq<Row>, spec: Spec, shuffle: seq<Row> -> seq<Row>) returns (given: Assigned, related: seq<Row>)
    requires DistinctKeys(parents) && Proper(spec) && Shuffles(shuffle)
    ensures LoadsEach(parents, spec, given, related) && DistinctKeys(related)
  {
    assert DistinctKeys(spec.table);
    hide Answer, Answers, LoadsOwn, Shuffles, Proper, DistinctKeys, Joined, Target;
    hide Copies, Brought, GivenGroups, GivenLast, HasItsOwn, OneOf, Matching;
    match spec.kind
    case HasMany =>
      given, related := LoadHasMany(parents, spec, shuffle);
      BroughtDistinct(parents, spec, related);
    case HasOne =>
      given, related := LoadHasOne(parents, spec, shuffle);
      BroughtDistinct(parents, spec, related);
    case BelongsTo =>
      ghost var vs;
      given, related, vs := LoadBelongsTo(parents, spec, shuffle);
      LoadedOwn(parents, spec, vs, related);
    case ManyToMany =>
      ghost var vs;
      given, related, vs := LoadManyToMany(parents, spec, shuffle);
      LoadedOwn(parents, spec, vs, related);
  }

  /**
   * Loads a relation and everything nested under it, level by level in batches, and gives every parent at every level what
   * a query for that parent alone may give it.
   */
  method LoadRelation(parents: seq<Row>, spec: Spec, shuffle: seq<Row> -> seq<Row>) returns (l: Loaded)
    requires DistinctKeys(parents) && Sound(spec) && Shuffles(shuffle)
    ensures Refines(parents, spec, l)
    decreases spec
  {
    hide LoadsEach, Shuffles, DistinctKeys, Proper;
    var given, related := LoadOne(parents, spec, shuffle);
    var nested: seq<Loaded> := [];
    if |spec.nested| > 0 && |related| > 0 {
      for j := 0 to |spec.nested|
        invariant |nested| == j && forall k | 0 <= k < j :: Refines(related, spec.nested[k], nested[k])
      {
        var child := LoadRelation(related, spec.nested[j], shuffle);
        nested := nested + [child];
      }
    }
    l := Loaded(given, related, nested);
  }

  // ---- A limit over a pivot -----------------------------------------------------------------

  lemma {:induction false} LimitSkipped(spec: Spec, source: int, n: nat)
    requires n <= |spec.pivot| && DistinctKeys(spec.table) && spec.limit != Some(0)
    ensures multiset(Joined(spec, source, n)) == multiset(Joined(spec.(limit := None), source, n))
  {
    hide Answer, DistinctKeys;
    if n > 0 {
      LimitSkipped(spec, source, n - 1);
      TargetUncut(spec, spec.pivot[n - 1].1);
      assert multiset(JoinedBy(spec, source, spec.pivot[n - 1])) == multiset(JoinedBy(spec.(limit := None), source, spec.pivot[n - 1]));
    }
  }

  lemma TargetUncut(spec: Spec, v: int)
    requires DistinctKeys(spec.table) && spec.limit != Some(0)
    ensures multiset(Answer(spec, Pk, v)) == multiset(Answer(spec.(limit := None), Pk, v))
  {
    var all := Matching(spec, Pk, v);
    PkMatchesOne(spec, v);
    SelectSame(spec.table, Wanted(spec, Pk, v), Wanted(spec.(limit := None), Pk, v));
    SortCount(Order(spec), all);
    SameSize(Sort(Order(spec), all), all);
    OneSame(Sort(Order(spec), all), all);
  }

  /** Over a pivot the limit counts the rows of a target, of which there is one: a parent gets all that its pivot rows join. */
  lemma PivotLimitCapsNothing(parents: seq<Row>, spec: Spec, given: Assigned, related: seq<Row>, p: Row)
    requires spec.kind.ManyToMany? && DistinctKeys(spec.table) && spec.limit.Some? && spec.limit.value > 0
    requires LoadsEach(parents, spec, given, related) && p in parents
    ensures multiset(given[p.pk]) == multiset(Joined(spec.(limit := None), p.pk, |spec.pivot|))
  {
    LimitSkipped(spec, p.pk, |spec.pivot|);
  }

  const FIRST := Row(1, map[])
  const SECOND := Row(2, map[])
  const PARENT := Row(7, map[])

  /** One parent, two targets, and a limit of one. */
  const ONE_OF_TWO := Spec(ManyToMany, [FIRST, SECOND], "", [(7, 1), (7, 2)], (_: Row) => true, false, (_: Row, _: Row) => false, Some(1), [])

  lemma LimitOneLoadsTwo(given: Assigned, related: seq<Row>)
    requires LoadsEach([PARENT], ONE_OF_TWO, given, related)
    ensures 7 in given && multiset(given[7]) == multiset{FIRST, SECOND} && |given[7]| == 2
  {
    assert PARENT in [PARENT];
    BothJoined();
    hide *;
    PivotLimitCapsNothing([PARENT], ONE_OF_TWO, given, related, PARENT);
    SameSize(given[7], [FIRST, SECOND]);
  }

  lemma BothJoined()
    ensures Joined(ONE_OF_TWO.(limit := None), 7, 2) == [FIRST, SECOND] && DistinctKeys([FIRST, SECOND])
    ensures multiset([FIRST, SECOND]) == multiset{FIRST, SECOND}
  {
    var all := ONE_OF_TWO.(limit := None);
    TargetAlone(1, FIRST);
    TargetAlone(2, SECOND);
    hide Answer;
    assert Joined(all, 7, 0) == [] && Joined(all, 7, 1) == [FIRST];
  }

  lemma TargetAlone(v: int, x: Row)
    requires (v == 1 && x == FIRST) || (v == 2 && x == SECOND)
    ensures Answer(ONE_OF_TWO.(limit := None), Pk, v) == [x]
  {
    var p := Wanted(ONE_OF_TWO.(limit := None), Pk, v);
    assert [FIRST, SECOND][1..] == [SECOND] && [SECOND][1..] == [];
    assert Select([], p) == [] && Select([SECOND], p) == if v == 2 then [SECOND] else [];
    assert Select([FIRST, SECOND], p) == [x];
  }
}
