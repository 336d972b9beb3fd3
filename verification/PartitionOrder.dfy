/** Order inside a partition. */
module PartitionOrder {
  // Order inside a partition. It needs runs in which every batch ends within its leases, no relay crashes, no statement
  // that records an outcome fails, and the ids of a partition are committed in increasing order; under those conditions
  // at most one relay publishes a partition, and a message is published only after every lower id of its partition is
  // settled for good.

  import opened Options
  import opened Outbox
  import opened RelayProtocol
  import Runs = RelayRuns

  predicate Holds(me: Worker, part: string) { me.leased == Some(part) || part in me.keys }

  /** Time does not pass the lease of a partition or of a message that some batch still uses. */
  ghost predicate InTime(s: State, to: nat) {
    && (forall w, part | 0 <= w < |s.workers| && Holds(s.workers[w], part) && part in s.parts :: to <= s.parts[part].until)
    && (forall id | id in s.rows && Held(s.groups, id) > 0 && s.rows[id].claimedUntil.Some? :: to <= s.rows[id].claimedUntil.value)
  }

  /** A transaction commits its rows of each partition above the ones already there. */
  ghost predicate AboveCommitted(rows: Table, staged: Staged) {
    forall id, other | id in staged && staged[id].Some? && other in rows && rows[other].key == staged[id] :: other < id
  }

  ghost predicate Orderly(s: State, step: Step)
    requires Enabled(s, step)
  {
    match step
    case Tick(to) => InTime(s, to)
    case CommitTx(tx) => AboveCommitted(s.rows, s.staged[tx])
    case Lease(_, _, now) => s.now <= now + s.cfg.lease
    case ClaimKeyed(w, now, ids) => s.now <= now + s.cfg.lease && OldestFirst(s.rows, s.workers[w].leased, now, s.workers[w].room, ids)
    case ClaimLoose(_, now, _) => s.now <= now + s.cfg.lease
    case Settle(_, v) => !v.Lost?
    case DropLease(_, ok) => ok
    case Release(_, _, ok) => ok
    case Crash(_) => false
    case _ => true
  }

  ghost predicate OrderlyRun(s: State, steps: seq<Step>)
    decreases |steps|
  {
    steps == [] || (Enabled(s, steps[0]) && Orderly(s, steps[0]) && OrderlyRun(Apply(s, steps[0]), steps[1..]))
  }

  // ---- One holder a partition ---------------------------------------------------------------

  ghost predicate LeaseOk(s: State, w: nat, part: string)
    requires w < |s.workers|
  {
    Holds(s.workers[w], part) ==> part in s.parts && s.parts[part].holder == w && s.now <= s.parts[part].until
  }

  ghost predicate WorkerOk(me: Worker) {
    me.leased.Some? ==> me.phase.Claiming? && me.leased.value !in me.keys
  }

  ghost predicate Leases(s: State) {
    && (forall w, part | 0 <= w < |s.workers| :: LeaseOk(s, w, part))
    && (forall w | 0 <= w < |s.workers| :: WorkerOk(s.workers[w]))
  }

  lemma LeasesStep(s: State, step: Step)
    requires Leases(s) && Enabled(s, step) && Orderly(s, step)
    ensures Leases(Apply(s, step))
  {
    var after := Apply(s, step);
    forall w, part | 0 <= w < |after.workers| ensures LeaseOk(after, w, part) { LeaseOkStep(s, step, w, part); }
    forall w | 0 <= w < |after.workers| ensures WorkerOk(after.workers[w]) { LeaseOkStep(s, step, w, ""); }
  }

  lemma LeaseOkStep(s: State, step: Step, w: nat, part: string)
    requires Leases(s) && Enabled(s, step) && Orderly(s, step) && w < |s.workers|
    ensures |Apply(s, step).workers| == |s.workers| && LeaseOk(Apply(s, step), w, part) && WorkerOk(Apply(s, step).workers[w])
  {
    assert LeaseOk(s, w, part) && WorkerOk(s.workers[w]);
    if step.Lease? {
      assert LeaseOk(s, w, step.part) && LeaseOk(s, step.w, step.part);
    } else if step.DropLease? {
      assert LeaseOk(s, step.w, s.workers[step.w].leased.value);
    }
  }

  // ---- One batch a partition ----------------------------------------------------------------

  ghost predicate BusyOk(s: State, g: nat)
    requires Busy(s, g)
  {
    var group := s.groups[g];
    && group.owner < |s.workers| && !s.workers[group.owner].phase.Releasing?
    && (group.key.Some? ==> group.key.value in s.workers[group.owner].keys)
  }

  ghost predicate Batches(s: State) {
    && (forall g: nat | Busy(s, g) :: BusyOk(s, g))
    && (forall g: nat, h: nat | Busy(s, g) && Busy(s, h) && s.groups[g].key.Some? && s.groups[g].key == s.groups[h].key :: g == h)
  }

  /** No step but a crash does more to a group than move its stage and drop its first message. */
  ghost predicate Moved(before: Group, after: Group) {
    && after.owner == before.owner && after.key == before.key
    && (after.todo == before.todo || (before.todo != [] && after.todo == before.todo[1..]))
  }

  lemma GroupMoved(s: State, step: Step, g: nat)
    requires Enabled(s, step) && Orderly(s, step) && g < |s.groups|
    ensures |Apply(s, step).groups| >= |s.groups| && Moved(s.groups[g], Apply(s, step).groups[g])
    ensures Busy(Apply(s, step), g) ==> Busy(s, g)
  {
  }

  lemma {:induction false} SingleAt(w: nat, msgs: seq<Msg>, i: nat)
    requires i < |Singles(w, msgs)|
    ensures i < |msgs| && Singles(w, msgs)[i] == Group(w, None, [msgs[i]], Ready)
    decreases |msgs|
  {
    if i > 0 { SingleAt(w, msgs[1..], i - 1); }
  }

  /** Only claims make groups: one for a partition, one for each message without a key. */
  lemma NewGroup(s: State, step: Step, g: nat)
    requires Enabled(s, step) && Orderly(s, step) && |s.groups| <= g < |Apply(s, step).groups|
    ensures (step.ClaimKeyed? && g == |s.groups|) || step.ClaimLoose?
    ensures var group, msgs := Apply(s, step).groups[g], Messages(Apply(s, step).rows, step.ids);
            && group.owner == step.w && group.stage.Ready?
            && (step.ClaimKeyed? ==> group.key == s.workers[step.w].leased && group.todo == msgs)
            && (step.ClaimLoose? ==> group.key.None? && |group.todo| == 1 && group.todo[0] in msgs)
  {
    if step.ClaimLoose? {
      SingleAt(step.w, Messages(Apply(s, step).rows, step.ids), g - |s.groups|);
    }
  }

  /** A partition just leased has no batch yet. */
  lemma LeasedIsIdle(s: State, w: nat, g: nat)
    requires Leases(s) && Batches(s) && w < |s.workers| && s.workers[w].leased.Some? && Busy(s, g)
    ensures s.groups[g].key != s.workers[w].leased
  {
    assert BusyOk(s, g) && WorkerOk(s.workers[w]);
    var part := s.workers[w].leased.value;
    assert LeaseOk(s, w, part) && LeaseOk(s, s.groups[g].owner, part);
  }

  lemma BusyOkStep(s: State, step: Step, g: nat)
    requires Leases(s) && Batches(s) && Enabled(s, step) && Orderly(s, step) && Busy(Apply(s, step), g)
    ensures BusyOk(Apply(s, step), g)
  {
    if g < |s.groups| {
      GroupMoved(s, step, g);
      assert BusyOk(s, g);
      assert s.groups[g] in s.groups;
    } else {
      NewGroup(s, step, g);
      assert WorkerOk(s.workers[step.w]);
    }
  }

  lemma OneBatchStep(s: State, step: Step, g: nat, h: nat)
    requires Leases(s) && Batches(s) && Enabled(s, step) && Orderly(s, step) && Busy(Apply(s, step), g) && Busy(Apply(s, step), h)
    requires var groups := Apply(s, step).groups; groups[g].key.Some? && groups[g].key == groups[h].key
    requires g <= h
    ensures g == h
  {
    var after := Apply(s, step);
    if h < |s.groups| {
      GroupMoved(s, step, g);
      GroupMoved(s, step, h);
    } else {
      NewGroup(s, step, h);
      if g < |s.groups| {
        GroupMoved(s, step, g);
        LeasedIsIdle(s, step.w, g);
      } else {
        NewGroup(s, step, g);
      }
    }
  }

  lemma BatchesStep(s: State, step: Step)
    requires Leases(s) && Batches(s) && Enabled(s, step) && Orderly(s, step)
    ensures Batches(Apply(s, step))
  {
    hide Enabled, Apply, Orderly, Leases, BusyOk;
    var after := Apply(s, step);
    forall g: nat | Busy(after, g) ensures BusyOk(after, g) { BusyOkStep(s, step, g); }
    forall g: nat, h: nat | Busy(after, g) && Busy(after, h) && after.groups[g].key.Some? && after.groups[g].key == after.groups[h].key
      ensures g == h
    {
      if g <= h { OneBatchStep(s, step, g, h); } else { OneBatchStep(s, step, h, g); }
    }
  }

  // ---- Each message in hand once ------------------------------------------------------------

  /** In an orderly run a row is leased exactly while one batch holds it, and it is open all that time. */
  ghost predicate RowOk(s: State, id: int)
    requires id in s.rows
  {
    var row := s.rows[id];
    && Held(s.groups, id) == (if row.claimedUntil.Some? then 1 else 0)
    && (row.claimedUntil.Some? ==> Open(row) && s.now <= row.claimedUntil.value)
  }

  ghost predicate MessageOk(s: State, g: Group, m: Msg) {
    m.id in s.rows && s.rows[m.id].key == g.key && s.rows[m.id].attempts == m.attempts
  }

  ghost predicate Hands(s: State) {
    && (forall id | id in s.rows :: RowOk(s, id))
    && (forall g, m | g in s.groups && m in g.todo :: MessageOk(s, g, m))
  }

  /** Only a row nobody holds is claimable, and a claim holds it. */
  lemma ClaimedOnce(s: State, step: Step, id: int)
    requires Hands(s) && Enabled(s, step) && Orderly(s, step) && (step.ClaimKeyed? || step.ClaimLoose?) && id in s.rows
    ensures id in Apply(s, step).rows && RowOk(Apply(s, step), id)
    ensures id in step.ids ==> s.rows[id].claimedUntil.None?
  {
    var after := Apply(s, step);
    var msgs := Messages(after.rows, step.ids);
    assert RowOk(s, id);
    BagOfClaim(after.rows, step.ids, id);
    if step.ClaimKeyed? {
      HeldKeyed(s.groups, Group(step.w, s.workers[step.w].leased, msgs, Ready), id);
    } else {
      HeldSingles(s.groups, step.w, msgs, id);
    }
  }

  /** A step leaves every row alone that it neither settles nor claims. */
  lemma RowKept(s: State, step: Step, id: int)
    requires Runs.Produced(s) && Enabled(s, step) && Orderly(s, step) && id in s.rows
    requires step.Settle? ==> id != s.groups[step.g].todo[0].id
    requires (step.ClaimKeyed? || step.ClaimLoose?) ==> id !in step.ids
    ensures id in Apply(s, step).rows && Apply(s, step).rows[id] == s.rows[id]
  {
  }

  lemma RowOkSettled(s: State, step: Step, id: int)
    requires Hands(s) && Enabled(s, step) && Orderly(s, step) && step.Settle? && id in s.rows
    ensures RowOk(Apply(s, step), id)
  {
    assert RowOk(s, id);
    SettledHeld(s.groups, step.g, step.verdict, id);
    hide Held, Hands;
  }

  lemma RowOkUntouched(s: State, step: Step, id: int)
    requires Hands(s) && Enabled(s, step) && Orderly(s, step) && id in s.rows && id in Apply(s, step).rows
    requires !step.Settle? && !step.ClaimKeyed? && !step.ClaimLoose?
    requires Apply(s, step).rows[id] == s.rows[id]
    ensures RowOk(Apply(s, step), id)
  {
    assert RowOk(s, id);
    HeldSame(s.groups, Apply(s, step).groups, |s.groups|, id);
    hide Hands;
  }

  lemma RowOkInserted(s: State, step: Step, id: int)
    requires Runs.Kept(s) && Enabled(s, step) && id !in s.rows && id in Apply(s, step).rows
    ensures RowOk(Apply(s, step), id)
  {
    NothingHeld(s, id);
  }

  lemma RowOkStep(s: State, step: Step, id: int)
    requires Hands(s) && Runs.Kept(s) && Enabled(s, step) && Orderly(s, step) && id in Apply(s, step).rows
    ensures RowOk(Apply(s, step), id)
  {
    if id !in s.rows {
      RowOkInserted(s, step, id);
    } else if step.ClaimKeyed? || step.ClaimLoose? {
      ClaimedOnce(s, step, id);
    } else if step.Settle? {
      RowOkSettled(s, step, id);
    } else {
      RowKept(s, step, id);
      RowOkUntouched(s, step, id);
    }
  }

  lemma NothingHeld(s: State, id: int)
    requires Runs.Accounted(s) && id !in s.rows
    ensures Held(s.groups, id) == 0
  {
    assert Runs.Balanced(s.ledger, s.groups, id) && Runs.Counted(s.rows, s.ledger, id);
  }

  /** A message still in hand after a step is not the one the step settled, nor one it claimed. */
  lemma OthersInHand(s: State, step: Step, g: nat, k: nat)
    requires Hands(s) && Enabled(s, step) && Orderly(s, step) && g < |s.groups|
    requires k < |Apply(s, step).groups[g].todo|
    ensures var m := Apply(s, step).groups[g].todo[k];
            && m in s.groups[g].todo
            && (step.Settle? ==> m.id != s.groups[step.g].todo[0].id)
            && ((step.ClaimKeyed? || step.ClaimLoose?) ==> m.id !in step.ids)
  {
    var after := Apply(s, step);
    var m := after.groups[g].todo[k];
    GroupMoved(s, step, g);
    assert s.groups[g] in s.groups && m in s.groups[g].todo;
    assert MessageOk(s, s.groups[g], m) && RowOk(s, m.id);
    if step.Settle? {
      SettledHeld(s.groups, step.g, step.verdict, m.id);
      HeldHas(after.groups, |after.groups|, g, k);
    } else if step.ClaimKeyed? || step.ClaimLoose? {
      var i :| 0 <= i < |s.groups[g].todo| && s.groups[g].todo[i] == m;
      HeldHas(s.groups, |s.groups|, g, i);
      if m.id in step.ids { ClaimedOnce(s, step, m.id); }
    }
  }

  lemma NewMessageOk(s: State, step: Step, g: nat, m: Msg)
    requires Enabled(s, step) && Orderly(s, step) && |s.groups| <= g < |Apply(s, step).groups| && m in Apply(s, step).groups[g].todo
    ensures MessageOk(Apply(s, step), Apply(s, step).groups[g], m)
  {
    var after := Apply(s, step);
    NewGroup(s, step, g);
    assert m in Messages(after.rows, step.ids);
    var i :| 0 <= i < |step.ids| && m == MessageOf(after.rows, step.ids, i);
    assert step.ids[i] in step.ids;
  }

  lemma MessageOkStep(s: State, step: Step, g: nat, k: nat)
    requires Hands(s) && Runs.Produced(s) && Enabled(s, step) && Orderly(s, step)
    requires g < |Apply(s, step).groups| && k < |Apply(s, step).groups[g].todo|
    ensures MessageOk(Apply(s, step), Apply(s, step).groups[g], Apply(s, step).groups[g].todo[k])
  {
    var after := Apply(s, step);
    var m := after.groups[g].todo[k];
    if g < |s.groups| {
      GroupMoved(s, step, g);
      OthersInHand(s, step, g, k);
      assert s.groups[g] in s.groups && MessageOk(s, s.groups[g], m);
      RowKept(s, step, m.id);
    } else {
      NewMessageOk(s, step, g, m);
    }
  }

  lemma HandsStep(s: State, step: Step)
    requires Hands(s) && Runs.Kept(s) && Enabled(s, step) && Orderly(s, step)
    ensures Hands(Apply(s, step))
  {
    hide Enabled, Apply, Orderly, RowOk, MessageOk, Runs.Produced, Runs.Accounted, Runs.Sound;
    var after := Apply(s, step);
    forall id | id in after.rows ensures RowOk(after, id) { RowOkStep(s, step, id); }
    forall g, m | g in after.groups && m in g.todo ensures MessageOk(after, g, m) {
      var i :| 0 <= i < |after.groups| && after.groups[i] == g;
      var k :| 0 <= k < |g.todo| && g.todo[k] == m;
      MessageOkStep(s, step, i, k);
    }
  }

  // ---- Oldest first -------------------------------------------------------------------------

  predicate Ascending(msgs: seq<Msg>) { forall i, j | 0 <= i < j < |msgs| :: msgs[i].id < msgs[j].id }

  /** While a batch still publishes, every open row of its partition below one of its messages is in the batch. */
  ghost predicate Covers(rows: Table, g: Group) {
    g.key.Some? && !g.stage.Stopping? ==>
      forall id, m | id in rows && rows[id].key == g.key && Open(rows[id]) && m in g.todo && id < m.id :: id in Bag(g.todo)
  }

  ghost predicate Ordered(s: State) { forall g | g in s.groups :: Ascending(g.todo) && Covers(s.rows, g) }

  lemma {:induction false} BagWitness(msgs: seq<Msg>, id: int) returns (k: nat)
    requires id in Bag(msgs)
    ensures k < |msgs| && msgs[k].id == id
    decreases |msgs|
  {
    if msgs[0].id == id {
      k := 0;
    } else {
      var i := BagWitness(msgs[1..], id);
      k := i + 1;
    }
  }

  lemma {:induction false} HeldWitness(groups: seq<Group>, n: nat, id: int) returns (g: nat, k: nat)
    requires n <= |groups| && HeldIn(groups, n, id) > 0
    ensures g < n && k < |groups[g].todo| && groups[g].todo[k].id == id
  {
    if id in Bag(groups[n - 1].todo) {
      g := n - 1;
      k := BagWitness(groups[n - 1].todo, id);
    } else {
      g, k := HeldWitness(groups, n - 1, id);
    }
  }

  /** In the partition just leased every open row is free to claim. */
  lemma LeasedRowsFree(s: State, w: nat, id: int)
    requires Leases(s) && Batches(s) && Hands(s) && w < |s.workers| && s.workers[w].leased.Some?
    requires id in s.rows && s.rows[id].key == s.workers[w].leased
    ensures s.rows[id].claimedUntil.None?
  {
    assert RowOk(s, id);
    if Held(s.groups, id) > 0 {
      var g, k := HeldWitness(s.groups, |s.groups|, id);
      assert s.groups[g] in s.groups && s.groups[g].todo[k] in s.groups[g].todo;
      assert MessageOk(s, s.groups[g], s.groups[g].todo[k]);
      LeasedIsIdle(s, w, g);
    }
  }

  lemma ClaimCovers(s: State, step: Step)
    requires Leases(s) && Batches(s) && Hands(s) && Enabled(s, step) && Orderly(s, step) && step.ClaimKeyed?
    ensures var g := Apply(s, step).groups[|s.groups|]; Ascending(g.todo) && Covers(Apply(s, step).rows, g)
  {
    var after := Apply(s, step);
    var g := after.groups[|s.groups|];
    forall id, m | id in after.rows && after.rows[id].key == g.key && Open(after.rows[id]) && m in g.todo && id < m.id
      ensures id in Bag(g.todo)
    {
      LeasedRowsFree(s, step.w, id);
      var i :| 0 <= i < |step.ids| && m == MessageOf(after.rows, step.ids, i);
      assert step.ids[i] in step.ids;
      assert Wanted(s.rows, s.workers[step.w].leased, step.now, id);
      BagOfClaim(after.rows, step.ids, id);
    }
  }

  lemma OpenBefore(s: State, step: Step, id: int)
    requires Runs.Produced(s) && Enabled(s, step) && id in s.rows
    ensures id in Apply(s, step).rows && Apply(s, step).rows[id].key == s.rows[id].key
    ensures Open(Apply(s, step).rows[id]) ==> Open(s.rows[id])
  {
  }

  lemma InsertedAbove(s: State, step: Step, id: int, m: Msg)
    requires Enabled(s, step) && Orderly(s, step) && id in Apply(s, step).rows && id !in s.rows
    requires Apply(s, step).rows[id].key.Some? && m.id in s.rows && s.rows[m.id].key == Apply(s, step).rows[id].key
    ensures m.id < id
  {
  }

  lemma StillCovered(s: State, step: Step, i: nat, id: int, m: Msg)
    requires Hands(s) && Ordered(s) && Runs.Produced(s) && Enabled(s, step) && Orderly(s, step) && i < |s.groups|
    requires var g := Apply(s, step).groups[i];
             && g.key.Some? && !g.stage.Stopping? && m in g.todo && id < m.id
             && id in Apply(s, step).rows && Apply(s, step).rows[id].key == g.key && Open(Apply(s, step).rows[id])
    ensures id in Bag(s.groups[i].todo) && m in s.groups[i].todo
  {
    GroupMoved(s, step, i);
    var before := s.groups[i];
    assert before in s.groups && Covers(s.rows, before);
    assert m in before.todo && MessageOk(s, before, m);
    assert !before.stage.Stopping?;
    hide Hands, Ordered;
    if id in s.rows { OpenBefore(s, step, id); } else { InsertedAbove(s, step, id, m); }
  }

  lemma StillCovers(s: State, step: Step, i: nat)
    requires Hands(s) && Ordered(s) && Runs.Produced(s) && Enabled(s, step) && Orderly(s, step) && i < |s.groups|
    ensures var g := Apply(s, step).groups[i]; Ascending(g.todo) && Covers(Apply(s, step).rows, g)
  {
    var after := Apply(s, step);
    var before, g := s.groups[i], after.groups[i];
    GroupMoved(s, step, i);
    assert before in s.groups && Ascending(before.todo);
    if g.key.Some? && !g.stage.Stopping? {
      forall id, m | id in after.rows && after.rows[id].key == g.key && Open(after.rows[id]) && m in g.todo && id < m.id
        ensures id in Bag(g.todo)
      {
        StillCovered(s, step, i, id, m);
        if g.todo != before.todo { FirstIsClosed(s, step, i); }
      }
    }
  }

  /** A batch that goes on past a message has had it acked. */
  lemma FirstIsClosed(s: State, step: Step, i: nat)
    requires Hands(s) && Enabled(s, step) && Orderly(s, step) && i < |s.groups|
    requires Apply(s, step).groups[i].todo != s.groups[i].todo && !Apply(s, step).groups[i].stage.Stopping?
    ensures s.groups[i].todo != [] && Apply(s, step).groups[i].todo == s.groups[i].todo[1..]
    ensures var id := s.groups[i].todo[0].id; id in Apply(s, step).rows && !Open(Apply(s, step).rows[id])
  {
    GroupMoved(s, step, i);
    assert step.Settle? && step.g == i && step.verdict.Acked?;
    assert s.groups[i] in s.groups && s.groups[i].todo[0] in s.groups[i].todo;
    assert MessageOk(s, s.groups[i], s.groups[i].todo[0]);
  }

  lemma OrderedStep(s: State, step: Step)
    requires Leases(s) && Batches(s) && Hands(s) && Ordered(s) && Runs.Produced(s) && Enabled(s, step) && Orderly(s, step)
    ensures Ordered(Apply(s, step))
  {
    var after := Apply(s, step);
    forall g | g in after.groups ensures Ascending(g.todo) && Covers(after.rows, g) {
      var i :| 0 <= i < |after.groups| && after.groups[i] == g;
      NewOrStill(s, step, i);
    }
  }

  lemma NewOrStill(s: State, step: Step, i: nat)
    requires Leases(s) && Batches(s) && Hands(s) && Ordered(s) && Runs.Produced(s) && Enabled(s, step) && Orderly(s, step)
    requires i < |Apply(s, step).groups|
    ensures var g := Apply(s, step).groups[i]; Ascending(g.todo) && Covers(Apply(s, step).rows, g)
  {
    hide Enabled, Apply, Orderly, Leases, Batches, Hands, Ordered, Runs.Produced;
    if i < |s.groups| {
      StillCovers(s, step, i);
    } else {
      NewGroup(s, step, i);
      if step.ClaimKeyed? { ClaimCovers(s, step); }
    }
  }

  // ---- Attempts and the dead ----------------------------------------------------------------

  /** A row is dead exactly when maxAttempts of its publish calls failed, and never also processed. */
  ghost predicate Tally(s: State, id: int)
    requires id in s.rows
  {
    var row, l := s.rows[id], s.ledger;
    && l.abandoned[id] == 0
    && l.acks[id] == (if row.processedAt.Some? then 1 else 0)
    && (row.deadAt.Some? <==> 1 <= s.cfg.maxAttempts && l.fails[id] == s.cfg.maxAttempts)
    && (1 <= s.cfg.maxAttempts ==> l.fails[id] <= s.cfg.maxAttempts)
    && !(row.processedAt.Some? && row.deadAt.Some?)
  }

  /** The message in hand carries one attempt more than the failures recorded so far. */
  lemma AttemptsInHand(s: State, g: nat)
    requires Hands(s) && Runs.Accounted(s) && Busy(s, g)
    requires s.groups[g].todo[0].id in s.rows && Tally(s, s.groups[g].todo[0].id)
    ensures var m := s.groups[g].todo[0]; Open(s.rows[m.id]) && m.attempts == s.ledger.fails[m.id] + 1
  {
    var m := s.groups[g].todo[0];
    assert s.groups[g] in s.groups && m in s.groups[g].todo;
    assert MessageOk(s, s.groups[g], m) && RowOk(s, m.id);
    HeldHas(s.groups, |s.groups|, g, 0);
    assert Runs.Balanced(s.ledger, s.groups, m.id) && Runs.Counted(s.rows, s.ledger, m.id);
  }

  lemma TallySettled(s: State, step: Step)
    requires Hands(s) && Runs.Kept(s) && Enabled(s, step) && Orderly(s, step) && step.Settle?
    requires s.groups[step.g].todo[0].id in s.rows && Tally(s, s.groups[step.g].todo[0].id)
    ensures s.groups[step.g].todo[0].id in Apply(s, step).rows && Tally(Apply(s, step), s.groups[step.g].todo[0].id)
  {
    AttemptsInHand(s, step.g);
    hide Hands, Runs.Kept;
  }

  lemma TallyKept(s: State, step: Step, id: int)
    requires Enabled(s, step) && Orderly(s, step) && id in s.rows && Tally(s, id)
    requires step.Settle? ==> s.groups[step.g].todo[0].id != id
    requires id in Apply(s, step).rows && Apply(s, step).rows[id].processedAt == s.rows[id].processedAt
    requires Apply(s, step).rows[id].deadAt == s.rows[id].deadAt
    ensures Tally(Apply(s, step), id)
  {
  }

  lemma TallyInserted(s: State, step: Step, id: int)
    requires Runs.Accounted(s) && Enabled(s, step) && Orderly(s, step) && id !in s.rows && id in Apply(s, step).rows
    ensures Tally(Apply(s, step), id)
  {
    assert Runs.Balanced(s.ledger, s.groups, id) && Runs.Counted(s.rows, s.ledger, id);
  }

  lemma TallyStep(s: State, step: Step, id: int)
    requires Hands(s) && Runs.Kept(s) && Enabled(s, step) && Orderly(s, step) && id in Apply(s, step).rows
    requires id in s.rows ==> Tally(s, id)
    ensures Tally(Apply(s, step), id)
  {
    if step.Settle? && s.groups[step.g].todo[0].id == id {
      hide Tally;
      TallySettled(s, step);
    } else if id in s.rows {
      OutcomeKept(s, step, id);
      hide Tally, Orderly, Runs.Kept, Hands;
      TallyKept(s, step, id);
    } else {
      hide Tally, Orderly, Enabled, Apply;
      TallyInserted(s, step, id);
    }
  }

  lemma OutcomeKept(s: State, step: Step, id: int)
    requires Runs.Produced(s) && Enabled(s, step) && Orderly(s, step) && id in s.rows
    requires step.Settle? ==> s.groups[step.g].todo[0].id != id
    ensures id in Apply(s, step).rows && Apply(s, step).rows[id].processedAt == s.rows[id].processedAt
    ensures Apply(s, step).rows[id].deadAt == s.rows[id].deadAt
  {
    if (step.ClaimKeyed? || step.ClaimLoose?) && id in step.ids { return; }
    RowKept(s, step, id);
  }

  // ---- Orderly runs -------------------------------------------------------------------------

  ghost predicate Tallies(s: State) { forall id | id in s.rows :: Tally(s, id) }

  ghost predicate InOrder(s: State) { Runs.Kept(s) && Leases(s) && Batches(s) && Hands(s) && Ordered(s) && Tallies(s) }

  lemma InOrderStep(s: State, step: Step)
    requires InOrder(s) && Enabled(s, step) && Orderly(s, step)
    ensures InOrder(Apply(s, step))
  {
    hide Enabled, Apply, Orderly, Runs.Produced, Runs.Accounted, Runs.Sound, Leases, Batches, Hands, Ordered, Tally;
    Runs.ProducedStep(s, step);
    Runs.AccountedStep(s, step);
    Runs.SoundStep(s, step);
    LeasesStep(s, step);
    BatchesStep(s, step);
    HandsStep(s, step);
    OrderedStep(s, step);
    forall id | id in Apply(s, step).rows ensures Tally(Apply(s, step), id) { TallyStep(s, step, id); }
  }

  lemma {:induction false} OrderlyRuns(s: State, steps: seq<Step>)
    requires InOrder(s) && OrderlyRun(s, steps)
    ensures Possible(s, steps) && InOrder(After(s, steps)) && After(s, steps).cfg == s.cfg
    decreases |steps|
  {
    if steps != [] {
      ConfigKept(s, steps[0]);
      hide Enabled, Apply, Orderly, InOrder;
      InOrderStep(s, steps[0]);
      OrderlyRuns(Apply(s, steps[0]), steps[1..]);
    }
  }

  lemma ConfigKept(s: State, step: Step)
    requires Enabled(s, step)
    ensures Apply(s, step).cfg == s.cfg
  {
  }

  lemma StartInOrder(cfg: Config, replicas: nat)
    ensures InOrder(Start(cfg, replicas))
  {
    Runs.StartKept(cfg, replicas);
  }

  /** At most one batch of a partition is in progress, and its relay holds the live lease of that partition. */
  lemma OnePublisher(cfg: Config, replicas: nat, steps: seq<Step>, g: nat, h: nat)
    requires OrderlyRun(Start(cfg, replicas), steps) && Possible(Start(cfg, replicas), steps)
    requires var s := After(Start(cfg, replicas), steps);
             Busy(s, g) && Busy(s, h) && s.groups[g].key.Some? && s.groups[g].key == s.groups[h].key
    ensures g == h
    ensures var s := After(Start(cfg, replicas), steps);
            var part := s.groups[g].key.value;
            part in s.parts && s.parts[part].holder == s.groups[g].owner && s.now <= s.parts[part].until
  {
    StartInOrder(cfg, replicas);
    OrderlyRuns(Start(cfg, replicas), steps);
    var s := After(Start(cfg, replicas), steps);
    assert BusyOk(s, g) && LeaseOk(s, s.groups[g].owner, s.groups[g].key.value);
  }

  lemma {:induction false} LowestFirst(msgs: seq<Msg>, id: int)
    requires Ascending(msgs) && id in Bag(msgs)
    ensures msgs != [] && msgs[0].id <= id
  {
    var k := BagWitness(msgs, id);
  }

  /**
   * While a message of a partition is about to be published, is being published or has just been published, every
   * lower id of its partition is already processed or dead.
   */
  lemma PublishedInOrder(cfg: Config, replicas: nat, steps: seq<Step>, g: nat, id: int)
    requires OrderlyRun(Start(cfg, replicas), steps) && Possible(Start(cfg, replicas), steps)
    requires var s := After(Start(cfg, replicas), steps);
             && Busy(s, g) && s.groups[g].key.Some? && !s.groups[g].stage.Stopping?
             && id in s.rows && s.rows[id].key == s.groups[g].key && id < s.groups[g].todo[0].id
    ensures !Open(After(Start(cfg, replicas), steps).rows[id])
  {
    StartInOrder(cfg, replicas);
    OrderlyRuns(Start(cfg, replicas), steps);
    var s := After(Start(cfg, replicas), steps);
    var group := s.groups[g];
    assert group in s.groups && group.todo[0] in group.todo;
    if Open(s.rows[id]) { LowestFirst(group.todo, id); }
  }

  /** A message is dead exactly when maxAttempts of its publish calls failed, never both dead and processed, and acked once. */
  lemma DeadExactly(cfg: Config, replicas: nat, steps: seq<Step>, id: int)
    requires OrderlyRun(Start(cfg, replicas), steps) && Possible(Start(cfg, replicas), steps)
    requires id in After(Start(cfg, replicas), steps).rows
    ensures var s := After(Start(cfg, replicas), steps);
            && (s.rows[id].deadAt.Some? <==> 1 <= cfg.maxAttempts && s.ledger.fails[id] == cfg.maxAttempts)
            && (s.rows[id].processedAt.Some? <==> s.ledger.acks[id] == 1) && s.ledger.acks[id] <= 1
            && !(s.rows[id].processedAt.Some? && s.rows[id].deadAt.Some?)
            && s.rows[id].attempts == s.ledger.acks[id] + s.ledger.fails[id] + Held(s.groups, id)
  {
    StartInOrder(cfg, replicas);
    OrderlyRuns(Start(cfg, replicas), steps);
    var s := After(Start(cfg, replicas), steps);
    assert Tally(s, id) && Runs.Balanced(s.ledger, s.groups, id) && Runs.Counted(s.rows, s.ledger, id);
  }

  // ---- When another relay gets in -----------------------------------------------------------

  /** An idle relay can lease the partition and then claim the row, reading the clock as it likes. */
  ghost predicate CanTake(s: State, w: nat, part: string, id: int) {
    exists t, u, ids :: Takes(s, w, part, id, t, u, ids)
  }

  ghost predicate Takes(s: State, w: nat, part: string, id: int, t: nat, u: nat, ids: seq<int>) {
    var lease := Step.Lease(w, part, t);
    Enabled(s, lease) && Apply(s, lease).workers[w].leased == Some(part) && id in ids
    && Enabled(Apply(s, lease), ClaimKeyed(w, u, ids))
  }

  /** The lease of the partition has run out, and so has the claim on the row, if it has one. */
  predicate DeadlinesPassed(s: State, part: string, id: int)
    requires id in s.rows
  {
    LeaseFree(s.parts, part, s.now) && (s.rows[id].claimedUntil.Some? ==> s.rows[id].claimedUntil.value < s.now)
  }

  /**
   * Exactly when a second relay can take an open row of a partition, whatever a batch in progress still does with it: when the
   * lease of the partition and the claim on that row have both run out. A batch guards the lease and each claim apart, and the
   * lease, read first, runs out first.
   */
  lemma TakenExactly(s: State, w: nat, part: string, id: int)
    requires w < |s.workers| && s.workers[w].phase.Claiming? && s.workers[w].leased.None? && s.workers[w].room > 0
    requires s.workers[w].clock <= s.now && id in s.rows && s.rows[id].key == Some(part) && Open(s.rows[id])
    ensures CanTake(s, w, part, id) <==> DeadlinesPassed(s, part, id)
  {
    if DeadlinesPassed(s, part, id) {
      var lease := Step.Lease(w, part, s.now);
      var next := Apply(s, lease);
      assert next.workers[w].leased == Some(part) && next.rows == s.rows && next.now == s.now;
      assert Wanted(s.rows, Some(part), s.now, id);
      assert MayClaim(s.rows, Some(part), s.now, next.workers[w].room, [id]);
      assert Takes(s, w, part, id, s.now, s.now, [id]);
    }
    if CanTake(s, w, part, id) {
      var t, u, ids :| Takes(s, w, part, id, t, u, ids);
      assert Wanted(s.rows, Some(part), u, id);
    }
  }

  // ---- A run that breaks the order ----------------------------------------------------------

  const SMALL := Config(10, 1, 3)

  /** A run so far, without a crash or a statement that failed to record an outcome, and its state. */
  ghost predicate Reached(steps: seq<Step>, s: State) {
    && Possible(Start(SMALL, 2), steps) && After(Start(SMALL, 2), steps) == s
    && forall step | step in steps :: Sound(step)
  }

  predicate Sound(step: Step) {
    !step.Crash? && !(step.Settle? && step.verdict.Lost?) && !(step.DropLease? && !step.ok) && !(step.Release? && !step.ok)
  }

  lemma {:induction false} OneMore(s: State, steps: seq<Step>, step: Step)
    requires Possible(s, steps) && Enabled(After(s, steps), step)
    ensures Possible(s, steps + [step]) && After(s, steps + [step]) == Apply(After(s, steps), step)
    decreases |steps|
  {
    hide Enabled, Apply;
    if steps == [] {
      assert steps + [step] == [step] && [step][1..] == [];
    } else {
      assert (steps + [step])[1..] == steps[1..] + [step];
      OneMore(Apply(s, steps[0]), steps[1..], step);
    }
  }

  lemma Goes(steps: seq<Step>, s: State, step: Step) returns (more: seq<Step>, next: State)
    requires Reached(steps, s) && Enabled(s, step) && Sound(step)
    ensures more == steps + [step] && next == Apply(s, step) && Reached(more, next)
  {
    hide Enabled, Apply;
    OneMore(Start(SMALL, 2), steps, step);
    more, next := steps + [step], Apply(s, step);
  }

  ghost predicate Looks(s: State, rows: Table, parts: Leases, now: nat, workers: seq<Worker>, groups: seq<Group>) {
    s.cfg == SMALL && s.rows == rows && s.parts == parts && s.now == now && s.workers == workers && s.groups == groups
  }

  const IDLE := Resting(SMALL, 0)
  const FRESH := Row(Some("p"), None, None, None, 0)
  const CLAIMED := Row(Some("p"), None, None, Some(15), 1)

  lemma TwoRows() returns (steps: seq<Step>, s: State)
    ensures Reached(steps, s) && Looks(s, map[1 := FRESH, 2 := FRESH], map[], 0, [IDLE, IDLE], [])
  {
    steps, s := [], Start(SMALL, 2);
    assert s.workers == [IDLE, IDLE];
    steps, s := Goes(steps, s, Step.Stage(0, Some("p")));
    steps, s := Goes(steps, s, Step.Stage(0, Some("p")));
    steps, s := Goes(steps, s, CommitTx(0));
  }

  /** Replica 0 leases the partition at 0 and claims the first row at 5: the lease ends at 10, the claim at 15. */
  lemma FirstClaims() returns (steps: seq<Step>, s: State)
    ensures Reached(steps, s)
    ensures Looks(s, map[1 := CLAIMED, 2 := FRESH], map["p" := Lease.Lease(0, 10)], 5,
                  [Worker(Claiming, None, {"p"}, 0, 5), IDLE], [Group(0, Some("p"), [Msg(1, 1)], Ready)])
  {
    steps, s := TwoRows();
    hide Reached;
    steps, s := Goes(steps, s, Step.Lease(0, "p", 0));
    steps, s := Goes(steps, s, Tick(5));
    assert Looks(s, map[1 := FRESH, 2 := FRESH], map["p" := Lease.Lease(0, 10)], 5, [Worker(Claiming, Some("p"), {}, 1, 0), IDLE], []);
    steps, s := Goes(steps, s, ClaimKeyed(0, 5, [1]));
    assert s.rows == map[1 := CLAIMED, 2 := FRESH];
    assert Messages(s.rows, [1]) == [Msg(1, 1)];
    assert s.workers[0] == Worker(Claiming, None, {"p"}, 0, 5) by { assert {} + {"p"} == {"p"}; }
    assert s.workers == [Worker(Claiming, None, {"p"}, 0, 5), IDLE];
    assert s.groups == [] + [Group(0, Some("p"), [Msg(1, 1)], Ready)];
  }

  /** The publish call for the first row is still out when the lease has run out and the claim has not. */
  lemma SecondLeases() returns (steps: seq<Step>, s: State)
    ensures Reached(steps, s)
    ensures Looks(s, map[1 := CLAIMED, 2 := FRESH], map["p" := Lease.Lease(1, 21)], 11,
                  [Worker(Publishing, None, {"p"}, 0, 5), Worker(Claiming, Some("p"), {}, 1, 11)],
                  [Group(0, Some("p"), [Msg(1, 1)], Calling)])
  {
    steps, s := FirstClaims();
    hide Reached;
    steps, s := Goes(steps, s, ClaimLoose(0, 5, []));
    assert s.rows == map[1 := CLAIMED, 2 := FRESH];
    steps, s := Goes(steps, s, Call(0));
    steps, s := Goes(steps, s, Tick(11));
    steps, s := Goes(steps, s, Step.Lease(1, "p", 11));
  }

  lemma SecondClaims() returns (steps: seq<Step>, s: State)
    ensures Reached(steps, s)
    ensures Looks(s, map[1 := CLAIMED, 2 := Row(Some("p"), None, None, Some(21), 1)], map["p" := Lease.Lease(1, 21)], 11,
                  [Worker(Publishing, None, {"p"}, 0, 5), Worker(Claiming, None, {"p"}, 0, 11)],
                  [Group(0, Some("p"), [Msg(1, 1)], Calling), Group(1, Some("p"), [Msg(2, 1)], Ready)])
  {
    steps, s := SecondLeases();
    hide Reached;
    steps, s := Goes(steps, s, ClaimKeyed(1, 11, [2]));
    assert s.rows == map[1 := CLAIMED, 2 := Row(Some("p"), None, None, Some(21), 1)];
    assert Messages(s.rows, [2]) == [Msg(2, 1)];
    assert s.workers[1] == Worker(Claiming, None, {"p"}, 0, 11) by { assert {} + {"p"} == {"p"}; }
    assert s.workers == [Worker(Publishing, None, {"p"}, 0, 5), Worker(Claiming, None, {"p"}, 0, 11)];
    assert s.groups == [Group(0, Some("p"), [Msg(1, 1)], Calling)] + [Group(1, Some("p"), [Msg(2, 1)], Ready)];
  }

  /**
   * The order breaks in a run without a crash or a failed statement: the lease runs out before the claim on the first row, so
   * replica 1 leases the partition, passes over the first row and has the second published while the first is still open.
   */
  lemma OverrunBreaksOrder() returns (steps: seq<Step>, s: State)
    ensures Possible(Start(SMALL, 2), steps) && After(Start(SMALL, 2), steps) == s && forall step | step in steps :: Sound(step)
    ensures |s.groups| == 2 && Busy(s, 0) && Busy(s, 1) && s.groups[0].key == s.groups[1].key == Some("p")
    ensures s.groups[0].stage == Calling && s.groups[1].stage == Returned(true)
    ensures var low, high := s.groups[0].todo[0].id, s.groups[1].todo[0].id;
            low < high && low in s.rows && Open(s.rows[low]) && high in s.accepted
  {
    steps, s := SecondClaims();
    hide Reached;
    steps, s := Goes(steps, s, ClaimLoose(1, 11, []));
    assert s.rows == map[1 := CLAIMED, 2 := Row(Some("p"), None, None, Some(21), 1)];
    steps, s := Goes(steps, s, Call(1));
    steps, s := Goes(steps, s, Return(1, true));
    assert Reached(steps, s);
    ReachedIs(steps, s);
  }

  lemma ReachedIs(steps: seq<Step>, s: State)
    requires Reached(steps, s)
    ensures Possible(Start(SMALL, 2), steps) && After(Start(SMALL, 2), steps) == s && forall step | step in steps :: Sound(step)
  {
  }
}
