/** Replicas running migrations. */
module MigrationRunner {
  // Several replicas running migrations up and down over one sorted set: a lock, and one transaction for each migration.

  import opened Options

  datatype Lock = Free | HeldBy(replica: nat) | Stale

  /** What a transaction of a migration has done so far: its SQL, and its row in the tracking table. */
  datatype Work = Work(index: nat, ran: bool, recorded: bool)

  datatype Phase =
    | Idle
    | Locked(up: bool)
    | Looping(up: bool, applied: set<nat>, at: nat, count: nat, tx: Option<Work>)
    | Returned(up: bool, applied: set<nat>, count: nat)

  /** `net` is the migrations whose SQL is in effect, `tracked` the rows of the tracking table. */
  datatype State = State(size: nat, sessionLock: bool, net: set<nat>, tracked: set<nat>, lock: Lock, replicas: seq<Phase>)

  function Start(size: nat, sessionLock: bool, replicas: nat): State {
    State(size, sessionLock, {}, {}, Free, seq(replicas, _ => Idle))
  }

  datatype Step =
    | TakeLock(r: nat, up: bool)
    | ReadApplied(r: nat)
    | Begin(r: nat)              // up: the next pending migration; down: the last applied one
    | RunSql(r: nat)
    | Record(r: nat)             // up inserts the tracking row, down deletes it
    | Commit(r: nat)
    | Finish(r: nat)             // returns without error
    | Fail(r: nat)               // returns an error; an open transaction rolls back
    | Crash(r: nat)
    | ClearStale                 // an operator deletes the sentinel row of a dead process
    | Leave(r: nat)              // the caller has its result

  function First(applied: set<nat>, from: nat, size: nat): (i: nat)
    requires from <= size
    ensures from <= i <= size && (forall j | from <= j < i :: j in applied) && (i < size ==> i !in applied)
    decreases size - from
  {
    if from == size || from !in applied then from else First(applied, from + 1, size)
  }

  function Last(applied: set<nat>, size: nat): (i: Option<nat>)
    ensures i.Some? ==> i.value in applied && i.value < size && forall j | i.value < j < size :: j !in applied
    ensures i.None? ==> forall j | 0 <= j < size :: j !in applied
  {
    if size == 0 then None else if size - 1 in applied then Some(size - 1) else Last(applied, size - 1)
  }

  /** The migration a transaction takes on next. */
  function Next(p: Phase, size: nat): (i: Option<nat>)
    requires p.Looping?
    ensures i.Some? ==> i.value < size
  {
    if p.up then
      if p.at <= size && First(p.applied, p.at, size) < size then Some(First(p.applied, p.at, size)) else None
    else if p.count > 0 then None else Last(p.applied, size)
  }

  predicate Enabled(s: State, step: Step) {
    match step
    case TakeLock(r, _) => r < |s.replicas| && s.replicas[r].Idle? && s.lock.Free?
    case ReadApplied(r) => r < |s.replicas| && s.replicas[r].Locked?
    case Begin(r) => r < |s.replicas| && s.replicas[r].Looping? && s.replicas[r].tx.None? && Next(s.replicas[r], s.size).Some?
    case RunSql(r) => InTx(s, r) && !s.replicas[r].tx.value.ran
    case Record(r) => InTx(s, r) && s.replicas[r].tx.value.ran && !s.replicas[r].tx.value.recorded
    case Commit(r) => InTx(s, r) && s.replicas[r].tx.value.recorded
    case Finish(r) =>
      r < |s.replicas| && s.replicas[r].Looping? && s.replicas[r].tx.None? && Next(s.replicas[r], s.size).None?
      && (!s.replicas[r].up ==> s.replicas[r].count > 0)
    case Fail(r) => r < |s.replicas| && (s.replicas[r].Locked? || s.replicas[r].Looping?)
    case Crash(r) => r < |s.replicas| && !s.replicas[r].Returned?
    case ClearStale => s.lock.Stale?
    case Leave(r) => r < |s.replicas| && s.replicas[r].Returned?
  }

  predicate InTx(s: State, r: nat) { r < |s.replicas| && s.replicas[r].Looping? && s.replicas[r].tx.Some? }

  function Unlocked(s: State, r: nat): Lock { if s.lock == HeldBy(r) then Free else s.lock }

  function Moved(s: State, r: nat, p: Phase): State
    requires r < |s.replicas|
  {
    s.(replicas := s.replicas[r := p])
  }

  /** The tracking table and the net effect once a migration's transaction commits: both change, or neither. */
  function Committed(s: State, r: nat): State
    requires InTx(s, r)
  {
    var p := s.replicas[r];
    var w := p.tx.value;
    var done := Looping(p.up, p.applied, w.index + 1, p.count + 1, None);
    if p.up then Moved(s, r, done).(net := if w.ran then s.net + {w.index} else s.net, tracked := s.tracked + {w.index})
    else Moved(s, r, done).(net := if w.ran then s.net - {w.index} else s.net, tracked := s.tracked - {w.index})
  }

  function Apply(s: State, step: Step): State
    requires Enabled(s, step)
  {
    match step
    case TakeLock(r, up) => Moved(s, r, Locked(up)).(lock := HeldBy(r))
    case ReadApplied(r) => Moved(s, r, Looping(s.replicas[r].up, s.tracked, 0, 0, None))
    case Begin(r) => Moved(s, r, s.replicas[r].(tx := Some(Work(Next(s.replicas[r], s.size).value, false, false))))
    case RunSql(r) => Moved(s, r, s.replicas[r].(tx := Some(s.replicas[r].tx.value.(ran := true))))
    case Record(r) => Moved(s, r, s.replicas[r].(tx := Some(s.replicas[r].tx.value.(recorded := true))))
    case Commit(r) => Committed(s, r)
    case Finish(r) => Moved(s, r, Returned(s.replicas[r].up, s.replicas[r].applied, s.replicas[r].count)).(lock := Unlocked(s, r))
    case Fail(r) => Moved(s, r, Idle).(lock := Unlocked(s, r))
    case Crash(r) => Moved(s, r, Idle).(lock := if s.lock != HeldBy(r) then s.lock else if s.sessionLock then Free else Stale)
    case ClearStale => s.(lock := Free)
    case Leave(r) => Moved(s, r, Idle)
  }

  // ---- What every run keeps -----------------------------------------------------------------

  function Prefix(k: nat): (s: set<nat>)
    ensures forall i :: i in s <==> 0 <= i < k
  {
    if k == 0 then {} else Prefix(k - 1) + {k - 1}
  }

  /** The holder's own reading of the table is the table now, less what it has added or plus what it has taken back. */
  ghost predicate HolderOk(p: Phase, k: nat, size: nat) {
    p.Looping? ==>
      && (if p.up then p.count <= k && p.applied == Prefix(k - p.count) && p.at == (if p.count > 0 then k else 0)
          else p.count <= 1 && k + p.count <= size && p.applied == Prefix(k + p.count) && (p.tx.Some? ==> p.count == 0))
      && (p.tx.Some? ==> p.tx.value.index == (if p.up then k else k - 1) && (p.tx.value.recorded ==> p.tx.value.ran) && p.tx.value.index < size)
  }

  ghost predicate Ok(s: State, k: nat) {
    && k <= s.size && s.net == Prefix(k) && s.tracked == Prefix(k)
    && (forall r | 0 <= r < |s.replicas| && !s.replicas[r].Idle? && !s.replicas[r].Returned? ::
          s.lock == HeldBy(r) && HolderOk(s.replicas[r], k, s.size))
  }

  lemma {:induction false} FirstInPrefix(a: nat, from: nat, size: nat)
    requires from <= size && a <= size
    ensures First(Prefix(a), from, size) == if from < a then a else from
    decreases size - from
  {
    if from < size { FirstInPrefix(a, from + 1, size); }
  }

  lemma {:induction false} LastInPrefix(a: nat, size: nat)
    ensures Last(Prefix(a), size) == if a == 0 || size == 0 then None else Some(if a < size then a - 1 else size - 1)
  {
    if size > 0 { LastInPrefix(a, size - 1); }
  }

  /** What a batch takes on next: upwards the first migration not in the table, downwards the last one in it. */
  lemma NextOfHolder(s: State, p: Phase, k: nat)
    requires k <= s.size && p.Looping? && p.tx.None? && HolderOk(p, k, s.size)
    ensures Next(p, s.size) == if p.up then (if k < s.size then Some(k) else None)
                               else if p.count == 0 && k > 0 then Some(k - 1) else None
  {
    if p.up {
      FirstInPrefix(k - p.count, p.at, s.size);
    } else {
      LastInPrefix(k + p.count, s.size);
    }
  }

  function LengthAfter(s: State, step: Step, k: nat): nat {
    if step.Commit? && InTx(s, step.r) then (if s.replicas[step.r].up then k + 1 else if k > 0 then k - 1 else 0) else k
  }

  lemma OkCommit(s: State, r: nat, k: nat)
    requires Ok(s, k) && Enabled(s, Commit(r))
    ensures Ok(Apply(s, Commit(r)), LengthAfter(s, Commit(r), k))
  {
    var p, after := s.replicas[r], Apply(s, Commit(r));
    assert HolderOk(p, k, s.size);
    if p.up {
      assert Prefix(k) + {k} == Prefix(k + 1);
    } else {
      assert Prefix(k) - {k - 1} == Prefix(k - 1);
    }
  }

  lemma OkBegin(s: State, r: nat, k: nat)
    requires Ok(s, k) && Enabled(s, Begin(r))
    ensures Ok(Apply(s, Begin(r)), k)
  {
    assert HolderOk(s.replicas[r], k, s.size);
    NextOfHolder(s, s.replicas[r], k);
  }

  lemma OkOther(s: State, step: Step, k: nat)
    requires Ok(s, k) && Enabled(s, step) && !step.Begin? && !step.Commit?
    ensures Ok(Apply(s, step), k)
  {
  }

  lemma OkStep(s: State, step: Step, k: nat)
    requires Ok(s, k) && Enabled(s, step)
    ensures Ok(Apply(s, step), LengthAfter(s, step, k))
  {
    hide Ok, Apply, Enabled;
    if step.Begin? { OkBegin(s, step.r, k); } else if step.Commit? { OkCommit(s, step.r, k); } else { OkOther(s, step, k); }
  }

  // ---- Runs ---------------------------------------------------------------------------------

  predicate Possible(s: State, steps: seq<Step>)
    decreases |steps|
  {
    steps == [] || (Enabled(s, steps[0]) && Possible(Apply(s, steps[0]), steps[1..]))
  }

  function After(s: State, steps: seq<Step>): State
    requires Possible(s, steps)
    decreases |steps|
  {
    if steps == [] then s else After(Apply(s, steps[0]), steps[1..])
  }

  lemma {:induction false} RunsOk(s: State, steps: seq<Step>, k: nat) returns (n: nat)
    requires Ok(s, k) && Possible(s, steps)
    ensures Ok(After(s, steps), n) && After(s, steps).size == s.size
    decreases |steps|
  {
    if steps == [] {
      n := k;
    } else {
      SizeKept(s, steps[0]);
      hide Ok, Apply, Enabled;
      OkStep(s, steps[0], k);
      n := RunsOk(Apply(s, steps[0]), steps[1..], LengthAfter(s, steps[0], k));
    }
  }

  lemma SizeKept(s: State, step: Step)
    requires Enabled(s, step)
    ensures Apply(s, step).size == s.size
  {
  }

  lemma {:induction false} PrefixSize(k: nat)
    ensures |Prefix(k)| == k
  {
    if k > 0 { PrefixSize(k - 1); }
  }

  /**
   * Over every interleaving of replicas, with crashes, failures and stale locks cleared, the migrations in effect are a
   * prefix of the set and exactly the rows of the tracking table.
   */
  lemma AlwaysAPrefix(size: nat, sessionLock: bool, replicas: nat, steps: seq<Step>)
    requires Possible(Start(size, sessionLock, replicas), steps)
    ensures var s := After(Start(size, sessionLock, replicas), steps);
            s.net == s.tracked && exists k: nat :: k <= size && s.net == Prefix(k)
  {
    var n := RunsOk(Start(size, sessionLock, replicas), steps, 0);
  }

  /** SQL runs upwards only for a migration not in effect, and downwards only for the last one that is. */
  lemma NeverTwice(size: nat, sessionLock: bool, replicas: nat, steps: seq<Step>, r: nat)
    requires Possible(Start(size, sessionLock, replicas), steps)
    requires Enabled(After(Start(size, sessionLock, replicas), steps), RunSql(r))
    ensures var s := After(Start(size, sessionLock, replicas), steps);
            var p := s.replicas[r];
            if p.up then p.tx.value.index !in s.net && forall i | 0 <= i < p.tx.value.index :: i in s.net
            else p.tx.value.index in s.net && forall i | i in s.net :: i <= p.tx.value.index
  {
    var n := RunsOk(Start(size, sessionLock, replicas), steps, 0);
    var s := After(Start(size, sessionLock, replicas), steps);
    assert HolderOk(s.replicas[r], n, s.size);
  }

  /** An Up that returns without error leaves every migration applied, and its count is what the table lacked when it read it. */
  lemma UpCompletes(size: nat, sessionLock: bool, replicas: nat, steps: seq<Step>, r: nat)
    requires Possible(Start(size, sessionLock, replicas), steps)
    requires var s := After(Start(size, sessionLock, replicas), steps); Enabled(s, Finish(r)) && s.replicas[r].up
    ensures var s := After(Start(size, sessionLock, replicas), steps);
            && s.net == s.tracked == Prefix(size)
            && s.replicas[r].count == size - |s.replicas[r].applied|
  {
    var n := RunsOk(Start(size, sessionLock, replicas), steps, 0);
    hide Possible, After, Ok, Enabled;
    FinishedUp(After(Start(size, sessionLock, replicas), steps), r, n);
  }

  lemma FinishedUp(s: State, r: nat, k: nat)
    requires Ok(s, k) && Enabled(s, Finish(r)) && s.replicas[r].up
    ensures s.net == s.tracked == Prefix(s.size) && s.replicas[r].count == s.size - |s.replicas[r].applied|
  {
    hide Prefix, Next;
    assert HolderOk(s.replicas[r], k, s.size);
    NextOfHolder(s, s.replicas[r], k);
    assert k == s.size;
    PrefixSize(k - s.replicas[r].count);
  }

  // ---- One runner alone ---------------------------------------------------------------------

  datatype Ran = Ran(tracked: set<nat>, count: nat, ok: bool)

  /** The first n migrations of an Up, up to the first that fails. */
  function UpTo(applied: set<nat>, fails: nat -> bool, n: nat): Ran {
    if n == 0 then Ran(applied, 0, true)
    else
      var r := UpTo(applied, fails, n - 1);
      if !r.ok || n - 1 in applied then r
      else if fails(n - 1) then r.(ok := false)
      else Ran(r.tracked + {n - 1}, r.count + 1, true)
  }

  lemma {:induction false} UpStops(applied: set<nat>, fails: nat -> bool, n: nat, m: nat)
    requires n <= m && !UpTo(applied, fails, n).ok
    ensures UpTo(applied, fails, m) == UpTo(applied, fails, n)
  {
    if n < m { UpStops(applied, fails, n, m - 1); }
  }

  /** From a prefix an Up leaves a prefix: the whole set when nothing fails, and its count is how much longer it is. */
  lemma {:induction false} UpFromPrefix(a: nat, fails: nat -> bool, n: nat) returns (b: nat)
    ensures var r := UpTo(Prefix(a), fails, n);
            r.tracked == Prefix(b) && b == a + r.count && (r.ok ==> b == if a <= n then n else a) && (!r.ok ==> a <= b < n && fails(b))
  {
    if n == 0 {
      b := a;
    } else {
      b := UpFromPrefix(a, fails, n - 1);
      var before := UpTo(Prefix(a), fails, n - 1);
      if before.ok && n - 1 >= a && !fails(n - 1) {
        assert Prefix(n) == Prefix(n - 1) + {n - 1};
        b := n;
      }
    }
  }

  // ---- The loop as a run --------------------------------------------------------------------

  lemma {:induction false} RunsJoin(s: State, a: seq<Step>, b: seq<Step>)
    requires Possible(s, a) && Possible(After(s, a), b)
    ensures Possible(s, a + b) && After(s, a + b) == After(After(s, a), b)
    decreases |a|
  {
    if a == [] {
      assert a + b == b;
    } else {
      assert (a + b)[1..] == a[1..] + b;
      hide Enabled, Apply;
      RunsJoin(Apply(s, a[0]), a[1..], b);
    }
  }

  /** A replica that has worked through the first n migrations of an Up that goes well so far. */
  ghost predicate UpAt(s: State, r: nat, applied: set<nat>, fails: nat -> bool, n: nat) {
    && r < |s.replicas| && s.lock == HeldBy(r) && n <= s.size && UpTo(applied, fails, n).ok
    && s.net == s.tracked == UpTo(applied, fails, n).tracked
    && s.replicas[r].Looping? && s.replicas[r].up && s.replicas[r].applied == applied && s.replicas[r].tx.None?
    && s.replicas[r].count == UpTo(applied, fails, n).count && s.replicas[r].at <= n
    && forall j | s.replicas[r].at <= j < n :: j in applied
  }

  lemma {:induction false} FirstIs(applied: set<nat>, from: nat, n: nat, size: nat)
    requires from <= n <= size && (forall j | from <= j < n :: j in applied) && (n < size ==> n !in applied)
    ensures First(applied, from, size) == n
    decreases n - from
  {
    if from < n { FirstIs(applied, from + 1, n, size); }
  }

  function OneUp(r: nat): seq<Step> { [Begin(r), RunSql(r), Record(r), Commit(r)] }

  lemma OneMigration(s: State, r: nat, applied: set<nat>, fails: nat -> bool, n: nat)
    requires UpAt(s, r, applied, fails, n) && n < s.size && n !in applied && !fails(n)
    ensures Possible(s, OneUp(r)) && After(s, OneUp(r)).size == s.size
    ensures UpAt(After(s, OneUp(r)), r, applied, fails, n + 1)
  {
    FirstIs(applied, s.replicas[r].at, n, s.size);
    var steps := OneUp(r);
    assert steps[1..] == [RunSql(r), Record(r), Commit(r)] && steps[1..][1..] == [Record(r), Commit(r)];
    assert steps[1..][1..][1..] == [Commit(r)] && steps[1..][1..][1..][1..] == [];
    var s1 := Apply(s, Begin(r));
    var s2 := Apply(s1, RunSql(r));
    var s3 := Apply(s2, Record(r));
    var s4 := Apply(s3, Commit(r));
    assert Possible(s4, []) && Possible(s3, [Commit(r)]) && Possible(s2, [Record(r), Commit(r)]);
    assert After(s3, [Commit(r)]) == s4 && After(s2, [Record(r), Commit(r)]) == s4;
    assert After(s, steps) == s4;
  }

  lemma UpStarts(s: State, r: nat, fails: nat -> bool)
    requires r < |s.replicas| && s.replicas[r].Idle? && s.lock.Free? && s.net == s.tracked
    ensures var steps := [TakeLock(r, true), ReadApplied(r)];
            Possible(s, steps) && After(s, steps).size == s.size && UpAt(After(s, steps), r, s.tracked, fails, 0)
  {
    var steps := [TakeLock(r, true), ReadApplied(r)];
    assert steps[1..] == [ReadApplied(r)] && steps[1..][1..] == [];
    var locked := Apply(s, steps[0]);
    var ready := Apply(locked, steps[1]);
    assert Possible(ready, []) && Possible(locked, [ReadApplied(r)]);
    assert After(ready, []) == ready && After(locked, [ReadApplied(r)]) == ready && After(s, steps) == ready;
  }

  lemma AlreadyApplied(s: State, r: nat, applied: set<nat>, fails: nat -> bool, n: nat)
    requires UpAt(s, r, applied, fails, n) && n < s.size && n in applied
    ensures UpAt(s, r, applied, fails, n + 1)
  {
  }

  lemma {:induction false} UpRunsTo(s: State, r: nat, fails: nat -> bool, n: nat) returns (steps: seq<Step>)
    requires r < |s.replicas| && s.replicas[r].Idle? && s.lock.Free? && s.net == s.tracked
    requires n <= s.size && UpTo(s.tracked, fails, n).ok
    ensures Possible(s, steps) && After(s, steps).size == s.size && UpAt(After(s, steps), r, s.tracked, fails, n)
    decreases n
  {
    if n == 0 {
      UpStarts(s, r, fails);
      steps := [TakeLock(r, true), ReadApplied(r)];
    } else {
      UpWent(s.tracked, fails, n);
      hide *;
      steps := UpRunsTo(s, r, fails, n - 1);
      if n - 1 in s.tracked {
        AlreadyApplied(After(s, steps), r, s.tracked, fails, n - 1);
      } else {
        OneMigration(After(s, steps), r, s.tracked, fails, n - 1);
        RunsJoin(s, steps, OneUp(r));
        steps := steps + OneUp(r);
      }
    }
  }

  lemma UpWent(applied: set<nat>, fails: nat -> bool, n: nat)
    requires n > 0 && UpTo(applied, fails, n).ok
    ensures UpTo(applied, fails, n - 1).ok && (n - 1 !in applied ==> !fails(n - 1))
  {
  }

  lemma {:induction false} FirstFailure(applied: set<nat>, fails: nat -> bool, n: nat) returns (i: nat)
    requires !UpTo(applied, fails, n).ok
    ensures i < n && UpTo(applied, fails, i).ok && i !in applied && fails(i) && UpTo(applied, fails, n) == UpTo(applied, fails, i).(ok := false)
  {
    if UpTo(applied, fails, n - 1).ok { i := n - 1; } else { i := FirstFailure(applied, fails, n - 1); }
  }

  lemma OneMore(s: State, steps: seq<Step>, last: Step)
    requires Possible(s, steps) && Enabled(After(s, steps), last)
    ensures Possible(s, steps + [last]) && After(s, steps + [last]) == Apply(After(s, steps), last)
  {
    var t := After(s, steps);
    hide Enabled, Apply;
    assert [last][1..] == [];
    assert Possible(Apply(t, last), []) && After(Apply(t, last), []) == Apply(t, last);
    assert Possible(t, [last]) && After(t, [last]) == Apply(t, last);
    RunsJoin(s, steps, [last]);
  }

  /** What the loop of one Up does is a run of the protocol: from the lock to its result or its error, with the same table at the end. */
  lemma UpIsARun(s: State, r: nat, fails: nat -> bool) returns (steps: seq<Step>)
    requires r < |s.replicas| && s.replicas[r].Idle? && s.lock.Free? && s.net == s.tracked
    ensures Possible(s, steps)
    ensures var end, up := After(s, steps), UpTo(s.tracked, fails, s.size);
            && end.net == end.tracked == up.tracked && end.lock.Free? && r < |end.replicas|
            && end.replicas[r] == if up.ok then Returned(true, s.tracked, up.count) else Idle
  {
    if UpTo(s.tracked, fails, s.size).ok {
      steps := UpRunsTo(s, r, fails, s.size);
      var t := After(s, steps);
      FirstIs(s.tracked, t.replicas[r].at, s.size, s.size);
      OneMore(s, steps, Finish(r));
      steps := steps + [Finish(r)];
    } else {
      var i := FirstFailure(s.tracked, fails, s.size);
      steps := UpRunsTo(s, r, fails, i);
      var t := After(s, steps);
      FirstIs(s.tracked, t.replicas[r].at, i, s.size);
      OneMore(s, steps, Begin(r));
      OneMore(s, steps + [Begin(r)], Fail(r));
      steps := steps + [Begin(r)] + [Fail(r)];
    }
    hide Possible, UpTo, Prefix;
  }

  class Runner {
    var net: set<nat>
    var tracked: set<nat>

    /** Each migration's SQL commits with its tracking row, up to the first that fails. */
    method Up(size: nat, fails: nat -> bool) returns (count: nat, ok: bool)
      requires net == tracked
      modifies this
      ensures net == tracked && Ran(tracked, count, ok) == UpTo(old(tracked), fails, size)
    {
      var applied := tracked;
      count := 0;
      for i := 0 to size
        invariant net == tracked && Ran(tracked, count, true) == UpTo(applied, fails, i)
      {
        if i !in applied {
          if fails(i) {
            UpStops(applied, fails, i + 1, size);
            return count, false;
          }
          net, tracked := net + {i}, tracked + {i};
          count := count + 1;
        }
      }
      ok := true;
    }
  }
}
