/** What every run of the relays keeps. */
module RelayRuns {
  // What every run of the relays keeps: no crash, failed statement, expired lease or stale replica breaks any of it.

  import opened Options
  import opened Outbox
  import opened RelayProtocol

  /** No id is used twice, and the ids of an aborted transaction never reach the table. */
  ghost predicate Produced(s: State) { ProducedIn(s.rows.Keys, s.staged, s.nextId, s.aborted) }

  ghost predicate ProducedIn(ids: set<int>, staged: map<nat, Staged>, nextId: int, aborted: set<int>) {
    && (forall id | id in ids :: id < nextId && id !in aborted)
    && (forall id | id in aborted :: id < nextId)
    && (forall tx, id {:trigger id in staged[tx]} | tx in staged && id in staged[tx] :: id < nextId && id !in ids && id !in aborted)
    && (forall a, b, id {:trigger id in staged[a], id in staged[b]} | a in staged && b in staged && id in staged[a] && id in staged[b] :: a == b)
  }

  lemma ProducedCommit(ids: set<int>, staged: map<nat, Staged>, nextId: int, aborted: set<int>, tx: nat)
    requires ProducedIn(ids, staged, nextId, aborted) && tx in staged
    ensures ProducedIn(ids + staged[tx].Keys, staged - {tx}, nextId, aborted)
    ensures ProducedIn(ids, staged - {tx}, nextId, aborted + staged[tx].Keys)
  {
  }

  lemma ProducedStage(ids: set<int>, staged: map<nat, Staged>, nextId: int, aborted: set<int>, tx: nat, mine: Staged)
    requires ProducedIn(ids, staged, nextId, aborted)
    requires forall id | id in mine :: id == nextId || (tx in staged && id in staged[tx])
    ensures ProducedIn(ids, staged[tx := mine], nextId + 1, aborted)
  {
  }

  lemma ProducedStep(s: State, step: Step)
    requires Produced(s) && Enabled(s, step)
    ensures Produced(Apply(s, step))
  {
    hide ProducedIn, Dropped;
    if step.CommitTx? || step.AbortTx? {
      ProducedCommit(s.rows.Keys, s.staged, s.nextId, s.aborted, step.tx);
      assert Inserted(s.rows, s.staged[step.tx]).Keys == s.rows.Keys + s.staged[step.tx].Keys;
    } else if step.Stage? {
      var mine := StagedBy(s, step.tx)[s.nextId := step.key];
      ProducedStage(s.rows.Keys, s.staged, s.nextId, s.aborted, step.tx, mine);
    } else {
      assert Apply(s, step).rows.Keys == s.rows.Keys;
    }
  }

  // ---- Leases -------------------------------------------------------------------------------

  /** A relay gives up a partition it holds a lease on: after a claim, or when it found nothing to claim. */
  predicate GivesUp(s: State, step: Step, w: nat, part: string) {
    || (step.Release? && step.ok && step.w == w && step.part == part)
    || (step.DropLease? && step.ok && step.w == w && w < |s.workers| && s.workers[w].leased == Some(part))
  }

  predicate Live(s: State, part: string) { part in s.parts && s.now <= s.parts[part].until }

  /** In any state, timely or not, one step ends a live lease if and only if its own holder gives it up. */
  lemma LeaseEndsByHolder(s: State, step: Step, part: string)
    requires Enabled(s, step) && Live(s, part)
    ensures GivesUp(s, step, s.parts[part].holder, part) ==> part !in Apply(s, step).parts
    ensures !GivesUp(s, step, s.parts[part].holder, part) ==> part in Apply(s, step).parts && Apply(s, step).parts[part] == s.parts[part]
  {
  }

  /** A step changes the lease of one partition at most: the one it takes or gives up. */
  lemma OtherLeasesStay(s: State, step: Step, part: string)
    requires Enabled(s, step)
    requires !(step.Lease? && step.part == part) && !(part in s.parts && GivesUp(s, step, s.parts[part].holder, part))
    ensures part in Apply(s, step).parts <==> part in s.parts
    ensures part in s.parts ==> Apply(s, step).parts[part] == s.parts[part]
  {
  }

  /** What a relay gave up any relay can lease at once, whatever its clock reads; what another relay holds it cannot give up. */
  lemma GivenUpIsFree(s: State, step: Step, w: nat, part: string, v: nat, now: nat)
    requires Enabled(s, step) && GivesUp(s, step, w, part)
    requires var next := Apply(s, step); Enabled(next, Step.Lease(v, part, now))
    ensures var next := Apply(s, step);
            if part in s.parts && s.parts[part].holder != w then part in next.parts && next.parts[part] == s.parts[part]
            else
              && part !in next.parts
              && var after := Apply(next, Step.Lease(v, part, now));
                 after.workers[v].leased == Some(part) && part in after.parts && after.parts[part] == Outbox.Lease(v, now + s.cfg.lease)
  {
  }

  predicate NeverGivesUp(s: State, steps: seq<Step>, w: nat, part: string)
    requires Possible(s, steps)
    decreases |steps|
  {
    steps == [] || (!GivesUp(s, steps[0], w, part) && NeverGivesUp(Apply(s, steps[0]), steps[1..], w, part))
  }

  lemma ClockRuns(s: State, step: Step)
    requires Enabled(s, step)
    ensures s.now <= Apply(s, step).now
  {
  }

  lemma {:induction false} ClockRunsOn(s: State, steps: seq<Step>)
    requires Possible(s, steps)
    ensures s.now <= After(s, steps).now
    decreases |steps|
  {
    hide Enabled, Apply;
    if steps != [] {
      ClockRuns(s, steps[0]);
      ClockRunsOn(Apply(s, steps[0]), steps[1..]);
    }
  }

  /** Over every run, with crashes, lost statements and late batches: a lease that has not run out stands until its holder gives it up. */
  lemma {:induction false} LiveLeaseStands(s: State, steps: seq<Step>, part: string)
    requires Possible(s, steps) && part in s.parts && After(s, steps).now <= s.parts[part].until
    requires NeverGivesUp(s, steps, s.parts[part].holder, part)
    ensures part in After(s, steps).parts && After(s, steps).parts[part] == s.parts[part]
    decreases |steps|
  {
    hide Enabled, Apply, GivesUp;
    if steps != [] {
      ClockRunsOn(s, steps);
      LeaseEndsByHolder(s, steps[0], part);
      LiveLeaseStands(Apply(s, steps[0]), steps[1..], part);
    }
  }

  // ---- Claims are accounted for -------------------------------------------------------------

  ghost predicate Balanced(l: Ledger, groups: seq<Group>, id: int) {
    l.claims[id] == l.acks[id] + l.fails[id] + l.gives[id] + l.abandoned[id] + Held(groups, id)
  }

  /** A row's counter is its claims less the ones given back. */
  ghost predicate Counted(rows: Table, l: Ledger, id: int) {
    if id in rows then rows[id].attempts + l.gives[id] == l.claims[id] else l.claims[id] == 0
  }

  ghost predicate Accounted(s: State) {
    forall id :: Balanced(s.ledger, s.groups, id) && Counted(s.rows, s.ledger, id)
  }

  lemma {:induction false} Once(ids: seq<int>, id: int)
    requires Increasing(ids)
    ensures multiset(ids)[id] == if id in ids then 1 else 0
  {
    if ids != [] {
      var n := |ids| - 1;
      assert ids == ids[..n] + [ids[n]];
      Once(ids[..n], id);
    }
  }

  lemma AccountedClaim(s: State, step: Step)
    requires Accounted(s) && Enabled(s, step) && (step.ClaimKeyed? || step.ClaimLoose?)
    ensures Accounted(Apply(s, step))
  {
    var after := Apply(s, step);
    var msgs := Messages(after.rows, step.ids);
    forall id ensures Balanced(after.ledger, after.groups, id) && Counted(after.rows, after.ledger, id) {
      assert Balanced(s.ledger, s.groups, id) && Counted(s.rows, s.ledger, id);
      BagOfClaim(after.rows, step.ids, id);
      if step.ClaimKeyed? {
        HeldKeyed(s.groups, Group(step.w, s.workers[step.w].leased, msgs, Ready), id);
      } else {
        HeldSingles(s.groups, step.w, msgs, id);
      }
    }
  }

  lemma SettledBalanced(l: Ledger, groups: seq<Group>, g: nat, v: Verdict, id: int)
    requires g < |groups| && groups[g].todo != [] && Balanced(l, groups, id)
    ensures Balanced(Booked(l, groups[g].todo[0].id, v), groups[g := AfterVerdict(groups[g], v)], id)
  {
    hide Held;
    SettledHeld(groups, g, v, id);
  }

  lemma SettledCounted(cfg: Config, rows: Table, l: Ledger, m: Msg, v: Verdict, id: int)
    requires Counted(rows, l, id)
    ensures Counted(Settled(cfg, rows, m, v), Booked(l, m.id, v), id)
  {
  }

  lemma AccountedSettle(s: State, step: Step)
    requires Accounted(s) && Enabled(s, step) && step.Settle?
    ensures Accounted(Apply(s, step))
  {
    var after, m := Apply(s, step), s.groups[step.g].todo[0];
    hide Balanced, Counted, Settled, AfterVerdict, Booked;
    forall id ensures Balanced(after.ledger, after.groups, id) && Counted(after.rows, after.ledger, id) {
      assert Balanced(s.ledger, s.groups, id) && Counted(s.rows, s.ledger, id);
      SettledBalanced(s.ledger, s.groups, step.g, step.verdict, id);
      SettledCounted(s.cfg, s.rows, s.ledger, m, step.verdict, id);
    }
  }
  lemma AccountedCrash(s: State, step: Step)
    requires Accounted(s) && Enabled(s, step) && step.Crash?
    ensures Accounted(Apply(s, step))
  {
    var after := Apply(s, step);
    forall id ensures Balanced(after.ledger, after.groups, id) && Counted(after.rows, after.ledger, id) {
      assert Balanced(s.ledger, s.groups, id) && Counted(s.rows, s.ledger, id);
      HeldDropped(s.groups, step.w, |s.groups|, id);
    }
  }

  lemma AccountedOther(s: State, step: Step)
    requires Accounted(s) && Produced(s) && Enabled(s, step)
    requires !step.ClaimKeyed? && !step.ClaimLoose? && !step.Settle? && !step.Crash?
    ensures Accounted(Apply(s, step))
  {
    var after := Apply(s, step);
    forall id ensures Balanced(after.ledger, after.groups, id) && Counted(after.rows, after.ledger, id) {
      assert Balanced(s.ledger, s.groups, id) && Counted(s.rows, s.ledger, id);
      HeldSame(s.groups, after.groups, |s.groups|, id);
    }
  }

  lemma AccountedStep(s: State, step: Step)
    requires Accounted(s) && Produced(s) && Enabled(s, step)
    ensures Accounted(Apply(s, step))
  {
    hide *;
    if step.ClaimKeyed? || step.ClaimLoose? {
      AccountedClaim(s, step);
    } else if step.Settle? {
      AccountedSettle(s, step);
    } else if step.Crash? {
      AccountedCrash(s, step);
    } else {
      AccountedOther(s, step);
    }
  }

  // ---- Rows and messages in hand ------------------------------------------------------------

  /** A message in hand is a committed row with an attempt some claim counted; past a call, it was sent. */
  ghost predicate GroupSound(ids: set<int>, claims: multiset<int>, sent: set<int>, accepted: set<int>, g: Group) {
    && (forall m | m in g.todo :: m.id in ids && m.attempts <= claims[m.id])
    && (g.todo != [] && (g.stage.Calling? || g.stage.Returned?) ==> g.todo[0].id in sent)
    && (g.todo != [] && g.stage == Returned(true) ==> g.todo[0].id in accepted)
  }

  ghost predicate RowSound(cfg: Config, claims: multiset<int>, accepted: set<int>, id: int, row: Row) {
    && (row.processedAt.Some? ==> id in accepted)
    && (row.deadAt.Some? ==> 1 <= cfg.maxAttempts && cfg.maxAttempts <= claims[id])
  }

  ghost predicate Sound(s: State) {
    && (forall g | g in s.groups :: GroupSound(s.rows.Keys, s.ledger.claims, s.sent, s.accepted, g))
    && (forall id | id in s.rows :: RowSound(s.cfg, s.ledger.claims, s.accepted, id, s.rows[id]))
    && s.accepted <= s.sent <= s.rows.Keys
  }

  lemma GroupStaysSound(s: State, after: State, g: Group)
    requires GroupSound(s.rows.Keys, s.ledger.claims, s.sent, s.accepted, g)
    requires s.rows.Keys <= after.rows.Keys && s.ledger.claims <= after.ledger.claims
    requires s.sent <= after.sent && s.accepted <= after.accepted
    ensures GroupSound(after.rows.Keys, after.ledger.claims, after.sent, after.accepted, g)
  {
  }

  lemma {:induction false} SinglesSound(ids: set<int>, claims: multiset<int>, sent: set<int>, accepted: set<int>, w: nat, msgs: seq<Msg>, g: Group)
    requires forall m | m in msgs :: m.id in ids && m.attempts <= claims[m.id]
    requires g in Singles(w, msgs)
    ensures GroupSound(ids, claims, sent, accepted, g)
    decreases |msgs|
  {
    if g == Group(w, None, [msgs[0]], Ready) {
      assert msgs[0] in msgs;
    } else {
      SinglesSound(ids, claims, sent, accepted, w, msgs[1..], g);
    }
  }

  lemma ClaimedMessage(s: State, step: Step, m: Msg)
    requires Accounted(s) && Enabled(s, step) && (step.ClaimKeyed? || step.ClaimLoose?)
    requires m in Messages(Apply(s, step).rows, step.ids)
    ensures m.id in s.rows && m.attempts <= Apply(s, step).ledger.claims[m.id]
  {
    var i :| 0 <= i < |step.ids| && m == MessageOf(Apply(s, step).rows, step.ids, i);
    assert step.ids[i] in step.ids;
    Once(step.ids, m.id);
    assert Counted(s.rows, s.ledger, m.id);
  }

  lemma SoundClaim(s: State, step: Step)
    requires Sound(s) && Accounted(s) && Enabled(s, step) && (step.ClaimKeyed? || step.ClaimLoose?)
    ensures Sound(Apply(s, step))
  {
    var after := Apply(s, step);
    var msgs := Messages(after.rows, step.ids);
    forall m | m in msgs ensures m.id in after.rows && m.attempts <= after.ledger.claims[m.id] { ClaimedMessage(s, step, m); }
    forall g | g in after.groups ensures GroupSound(after.rows.Keys, after.ledger.claims, after.sent, after.accepted, g) {
      if g in s.groups {
        GroupStaysSound(s, after, g);
      } else if step.ClaimLoose? {
        SinglesSound(after.rows.Keys, after.ledger.claims, after.sent, after.accepted, step.w, msgs, g);
      }
    }
    forall id | id in after.rows ensures RowSound(s.cfg, after.ledger.claims, after.accepted, id, after.rows[id]) {
      assert RowSound(s.cfg, s.ledger.claims, s.accepted, id, s.rows[id]);
    }
  }

  lemma SoundMoved(s: State, step: Step)
    requires Sound(s) && Enabled(s, step) && (step.Call? || step.Return? || step.Settle?)
    ensures var after := Apply(s, step);
            GroupSound(after.rows.Keys, after.ledger.claims, after.sent, after.accepted, after.groups[step.g])
  {
    var mine := s.groups[step.g];
    assert mine in s.groups && mine.todo[0] in mine.todo;
    assert GroupSound(s.rows.Keys, s.ledger.claims, s.sent, s.accepted, mine);
    assert Apply(s, step).rows.Keys == s.rows.Keys;
  }

  lemma SoundGroup(s: State, step: Step)
    requires Sound(s) && Enabled(s, step) && (step.Call? || step.Return? || step.Settle?)
    ensures Sound(Apply(s, step))
  {
    var after := Apply(s, step);
    SoundMoved(s, step);
    assert after.rows.Keys == s.rows.Keys && after.ledger.claims == s.ledger.claims;
    var mine := s.groups[step.g];
    assert mine in s.groups && mine.todo[0] in mine.todo;
    forall g | g in after.groups ensures GroupSound(after.rows.Keys, after.ledger.claims, after.sent, after.accepted, g) {
      if g != after.groups[step.g] {
        assert g in s.groups;
        GroupStaysSound(s, after, g);
      }
    }
    forall id | id in after.rows ensures RowSound(s.cfg, after.ledger.claims, after.accepted, id, after.rows[id]) {
      assert RowSound(s.cfg, s.ledger.claims, s.accepted, id, s.rows[id]);
    }
  }

  lemma SoundOther(s: State, step: Step)
    requires Sound(s) && Enabled(s, step)
    requires !step.ClaimKeyed? && !step.ClaimLoose? && !step.Settle? && !step.Call? && !step.Return?
    ensures Sound(Apply(s, step))
  {
    var after := Apply(s, step);
    forall g | g in after.groups ensures GroupSound(after.rows.Keys, after.ledger.claims, after.sent, after.accepted, g) {
      if g in s.groups { GroupStaysSound(s, after, g); }
      assert g in s.groups || g.todo == [];
    }
    forall id | id in after.rows ensures RowSound(s.cfg, after.ledger.claims, after.accepted, id, after.rows[id]) {
      if id in s.rows { assert RowSound(s.cfg, s.ledger.claims, s.accepted, id, s.rows[id]); }
    }
  }

  lemma SoundStep(s: State, step: Step)
    requires Sound(s) && Accounted(s) && Enabled(s, step)
    ensures Sound(Apply(s, step))
  {
    hide *;
    if step.ClaimKeyed? || step.ClaimLoose? {
      SoundClaim(s, step);
    } else if step.Call? || step.Return? || step.Settle? {
      SoundGroup(s, step);
    } else {
      SoundOther(s, step);
    }
  }

  // ---- Closed rows --------------------------------------------------------------------------

  /** Processed and dead are absorbing, and a row that reached one is never claimed again. */
  ghost predicate StaysClosed(before: State, after: State, id: int)
    requires id in before.rows
  {
    && id in after.rows && !Open(after.rows[id])
    && (before.rows[id].processedAt.Some? ==> after.rows[id].processedAt.Some?)
    && (before.rows[id].deadAt.Some? ==> after.rows[id].deadAt.Some?)
    && after.ledger.claims[id] == before.ledger.claims[id]
  }

  lemma ClosedStep(s: State, step: Step, id: int)
    requires Produced(s) && Enabled(s, step) && id in s.rows && !Open(s.rows[id])
    ensures StaysClosed(s, Apply(s, step), id)
  {
    if step.ClaimKeyed? || step.ClaimLoose? { Once(step.ids, id); }
  }

  // ---- The theorems -------------------------------------------------------------------------

  ghost predicate Kept(s: State) { Produced(s) && Accounted(s) && Sound(s) }

  lemma StartKept(cfg: Config, replicas: nat)
    ensures Kept(Start(cfg, replicas))
  {
  }

  lemma {:induction false} RunKeeps(s: State, steps: seq<Step>)
    requires Kept(s) && Possible(s, steps)
    ensures Kept(After(s, steps))
    decreases |steps|
  {
    if steps != [] {
      hide Enabled, Apply, Produced, Accounted, Sound;
      ProducedStep(s, steps[0]);
      AccountedStep(s, steps[0]);
      SoundStep(s, steps[0]);
      RunKeeps(Apply(s, steps[0]), steps[1..]);
    }
  }

  /**
   * Attempts are conserved: in every run a row's counter is its claims less its give-backs and never negative, and each
   * claim ended in exactly one of an ack, a failure, a give-back or an abandonment, or is still in hand.
   */
  lemma AttemptsConserved(cfg: Config, replicas: nat, steps: seq<Step>, id: int)
    requires Possible(Start(cfg, replicas), steps)
    ensures var s := After(Start(cfg, replicas), steps);
            && Balanced(s.ledger, s.groups, id)
            && (id in s.rows ==> 0 <= s.rows[id].attempts == s.ledger.claims[id] - s.ledger.gives[id])
            && (id !in s.rows ==> s.ledger.claims[id] == 0)
  {
    StartKept(cfg, replicas);
    RunKeeps(Start(cfg, replicas), steps);
    var s := After(Start(cfg, replicas), steps);
    assert Balanced(s.ledger, s.groups, id) && Counted(s.rows, s.ledger, id);
  }

  /**
   * Nothing phantom: in every run, whatever is sent is a row whose transaction committed, no row of an aborted
   * transaction is ever in the table, a processed row had a publish call that succeeded, and a dead row had at least
   * maxAttempts claims.
   */
  lemma SentRowsCommitted(cfg: Config, replicas: nat, steps: seq<Step>, id: int)
    requires Possible(Start(cfg, replicas), steps)
    ensures var s := After(Start(cfg, replicas), steps);
            && (id in s.sent ==> id in s.rows)
            && (id in s.aborted ==> id !in s.rows && id !in s.sent)
            && (id in s.rows && s.rows[id].processedAt.Some? ==> id in s.accepted && id in s.sent)
            && (id in s.rows && s.rows[id].deadAt.Some? ==> 1 <= cfg.maxAttempts <= s.ledger.claims[id])
  {
    StartKept(cfg, replicas);
    RunKeeps(Start(cfg, replicas), steps);
    ConfigStays(Start(cfg, replicas), steps);
    var s := After(Start(cfg, replicas), steps);
    assert id in s.rows ==> RowSound(s.cfg, s.ledger.claims, s.accepted, id, s.rows[id]);
  }

  lemma {:induction false} ConfigStays(s: State, steps: seq<Step>)
    requires Possible(s, steps)
    ensures After(s, steps).cfg == s.cfg
    decreases |steps|
  {
    if steps != [] { ConfigStays(Apply(s, steps[0]), steps[1..]); }
  }

  /** Processed and dead are absorbing over every continuation of a run, and the row is never claimed again. */
  lemma {:induction false} ClosedForGood(s: State, steps: seq<Step>, id: int)
    requires Kept(s) && Possible(s, steps) && id in s.rows && !Open(s.rows[id])
    ensures StaysClosed(s, After(s, steps), id)
    decreases |steps|
  {
    if steps != [] {
      ClosedStep(s, steps[0], id);
      hide Enabled, Apply, Produced, Accounted, Sound;
      ProducedStep(s, steps[0]);
      AccountedStep(s, steps[0]);
      SoundStep(s, steps[0]);
      ClosedForGood(Apply(s, steps[0]), steps[1..], id);
    }
  }
}
