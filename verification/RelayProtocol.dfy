/** The relays as one step relation. */
module RelayProtocol {
  // Any number of relay replicas over one outbox: the producers that fill it, and every statement a relay runs, as one
  // step relation. A step is one statement or one publish call, so any interleaving, crash, failed statement or expired
  // lease is a run.

  import opened Options
  import opened Outbox

  /** Where the goroutine of one publish group stands; `Stopping` gives the rest of the group back. */
  datatype Stage = Ready | Calling | Returned(ok: bool) | Stopping

  datatype Group = Group(owner: nat, key: Option<string>, todo: seq<Msg>, stage: Stage)

  datatype Phase = Claiming | Publishing | Releasing

  /** `leased` is the partition just leased and not claimed yet; `clock` is the last time the replica read. */
  datatype Worker = Worker(phase: Phase, leased: Option<string>, keys: set<string>, room: nat, clock: nat)

  /** How each claim of each message ended. `abandoned` counts crashes and statements that failed. */
  datatype Ledger = Ledger(claims: multiset<int>, acks: multiset<int>, fails: multiset<int>, gives: multiset<int>,
                           abandoned: multiset<int>)

  /** Rows a producing transaction inserted and has not committed. */
  type Staged = map<int, Option<string>>

  datatype State = State(cfg: Config, rows: Table, parts: Leases, now: nat, workers: seq<Worker>, groups: seq<Group>,
                         staged: map<nat, Staged>, nextId: int, aborted: set<int>,
                         sent: set<int>, accepted: set<int>, ledger: Ledger)

  function Resting(cfg: Config, clock: nat): Worker { Worker(Claiming, None, {}, cfg.batchSize, clock) }

  function Start(cfg: Config, replicas: nat): State {
    State(cfg, map[], map[], 0, seq(replicas, _ => Resting(cfg, 0)), [], map[], 1, {}, {}, {},
          Ledger(multiset{}, multiset{}, multiset{}, multiset{}, multiset{}))
  }

  datatype Step =
    | Tick(to: nat)
    | Stage(tx: nat, key: Option<string>)
    | CommitTx(tx: nat)
    | AbortTx(tx: nat)
    | Lease(w: nat, part: string, now: nat)
    | DropLease(w: nat, ok: bool)
    | ClaimKeyed(w: nat, now: nat, ids: seq<int>)
    | ClaimLoose(w: nat, now: nat, ids: seq<int>)
    | Call(g: nat)
    | Return(g: nat, published: bool)
    | Settle(g: nat, verdict: Verdict)
    | Finish(w: nat)
    | Release(w: nat, part: string, ok: bool)
    | Rest(w: nat)
    | Crash(w: nat)

  /** A replica reads the clock before it sends a statement, and its readings never go back. */
  predicate Reads(s: State, w: nat, now: nat) {
    w < |s.workers| && s.workers[w].clock <= now <= s.now
  }

  predicate MayEnd(stage: Stage, v: Verdict) {
    match v
    case Acked(_) => stage == Returned(true)
    case Unheard(_) => stage == Returned(true)
    case Failed(_) => stage == Returned(false)
    case GivenBack => stage == Stopping
    case Lost => stage.Returned? || stage.Stopping?
  }

  predicate Busy(s: State, g: nat) { g < |s.groups| && s.groups[g].todo != [] }

  predicate Enabled(s: State, step: Step) {
    match step
    case Tick(to) => s.now <= to
    case Stage(_, _) => true
    case CommitTx(tx) => tx in s.staged
    case AbortTx(tx) => tx in s.staged
    case Lease(w, _, now) => Reads(s, w, now) && s.workers[w].phase.Claiming? && s.workers[w].leased.None? && s.workers[w].room > 0
    case DropLease(w, _) => w < |s.workers| && s.workers[w].leased.Some?
    case ClaimKeyed(w, now, ids) =>
      Reads(s, w, now) && s.workers[w].leased.Some? && ids != [] && MayClaim(s.rows, s.workers[w].leased, now, s.workers[w].room, ids)
    case ClaimLoose(w, now, ids) =>
      && Reads(s, w, now) && s.workers[w].phase.Claiming? && s.workers[w].leased.None?
      && MayClaim(s.rows, None, now, s.workers[w].room, ids)
    case Call(g) => Busy(s, g) && s.groups[g].stage.Ready?
    case Return(g, _) => Busy(s, g) && s.groups[g].stage.Calling?
    case Settle(g, v) => Busy(s, g) && MayEnd(s.groups[g].stage, v)
    case Finish(w) => w < |s.workers| && s.workers[w].phase.Publishing? && forall g | g in s.groups && g.owner == w :: g.todo == []
    case Release(w, part, _) => w < |s.workers| && s.workers[w].phase.Releasing? && part in s.workers[w].keys
    case Rest(w) => w < |s.workers| && s.workers[w].phase.Releasing? && s.workers[w].keys == {}
    case Crash(w) => w < |s.workers|
  }

  function StagedBy(s: State, tx: nat): Staged { if tx in s.staged then s.staged[tx] else map[] }

  function Inserted(rows: Table, staged: Staged): Table {
    rows + map id | id in staged :: Row(staged[id], None, None, None, 0)
  }

  function Singles(w: nat, msgs: seq<Msg>): seq<Group> {
    if msgs == [] then [] else [Group(w, None, [msgs[0]], Ready)] + Singles(w, msgs[1..])
  }

  function Emptied(groups: seq<Group>, w: nat): seq<Group> {
    seq(|groups|, i requires 0 <= i < |groups| => if groups[i].owner == w then groups[i].(todo := []) else groups[i])
  }

  function AfterVerdict(g: Group, v: Verdict): Group
    requires g.todo != []
  {
    g.(todo := g.todo[1..], stage := if v.Acked? then Ready else Stopping)
  }

  function Booked(l: Ledger, id: int, v: Verdict): Ledger {
    match v
    case Acked(_) => l.(acks := l.acks + multiset{id})
    case Unheard(_) => l.(acks := l.acks + multiset{id})
    case Failed(_) => l.(fails := l.fails + multiset{id})
    case GivenBack => l.(gives := l.gives + multiset{id})
    case Lost => l.(abandoned := l.abandoned + multiset{id})
  }

  function Apply(s: State, step: Step): State
    requires Enabled(s, step)
  {
    match step
    case Tick(to) => s.(now := to)
    case Stage(tx, key) => s.(staged := s.staged[tx := StagedBy(s, tx)[s.nextId := key]], nextId := s.nextId + 1)
    case CommitTx(tx) => s.(staged := s.staged - {tx}, rows := Inserted(s.rows, s.staged[tx]))
    case AbortTx(tx) => s.(staged := s.staged - {tx}, aborted := s.aborted + s.staged[tx].Keys)
    case Lease(w, part, now) => ApplyLease(s, w, part, now)
    case DropLease(w, ok) =>
      var part := s.workers[w].leased.value;
      s.(parts := if ok then Released(s.parts, part, w) else s.parts, workers := s.workers[w := s.workers[w].(leased := None)])
    case ClaimKeyed(w, now, ids) => ApplyClaimKeyed(s, w, now, ids)
    case ClaimLoose(w, now, ids) => ApplyClaimLoose(s, w, now, ids)
    case Call(g) => s.(groups := s.groups[g := s.groups[g].(stage := Calling)], sent := s.sent + {s.groups[g].todo[0].id})
    case Return(g, ok) =>
      s.(groups := s.groups[g := s.groups[g].(stage := Returned(ok))],
         accepted := if ok then s.accepted + {s.groups[g].todo[0].id} else s.accepted)
    case Settle(g, v) =>
      var m := s.groups[g].todo[0];
      s.(rows := Settled(s.cfg, s.rows, m, v), groups := s.groups[g := AfterVerdict(s.groups[g], v)], ledger := Booked(s.ledger, m.id, v))
    case Finish(w) => s.(workers := s.workers[w := s.workers[w].(phase := Releasing)])
    case Release(w, part, ok) =>
      s.(parts := if ok then Released(s.parts, part, w) else s.parts,
         workers := s.workers[w := s.workers[w].(keys := s.workers[w].keys - {part})])
    case Rest(w) => s.(workers := s.workers[w := Resting(s.cfg, s.workers[w].clock)])
    case Crash(w) =>
      s.(workers := s.workers[w := Resting(s.cfg, s.workers[w].clock)], groups := Emptied(s.groups, w),
         ledger := s.ledger.(abandoned := s.ledger.abandoned + Dropped(s.groups, w, |s.groups|)))
  }

  function ApplyLease(s: State, w: nat, part: string, now: nat): State
    requires w < |s.workers|
  {
    if LeaseFree(s.parts, part, now) then
      s.(parts := Leased(s.parts, part, w, now + s.cfg.lease),
         workers := s.workers[w := s.workers[w].(leased := Some(part), clock := now)])
    else s.(workers := s.workers[w := s.workers[w].(clock := now)])
  }

  function ClaimRows(s: State, now: nat, ids: seq<int>): State
    requires forall id | id in ids :: id in s.rows
  {
    s.(rows := Claimed(s.rows, ids, now + s.cfg.lease), ledger := s.ledger.(claims := s.ledger.claims + multiset(ids)))
  }

  function ApplyClaimKeyed(s: State, w: nat, now: nat, ids: seq<int>): State
    requires w < |s.workers| && s.workers[w].leased.Some?
    requires forall id | id in ids :: id in s.rows
  {
    var me := s.workers[w];
    var c := ClaimRows(s, now, ids);
    c.(workers := s.workers[w := me.(leased := None, keys := me.keys + {me.leased.value}, clock := now,
                                     room := if |ids| <= me.room then me.room - |ids| else 0)],
       groups := s.groups + [Group(w, me.leased, Messages(c.rows, ids), Ready)])
  }

  function ApplyClaimLoose(s: State, w: nat, now: nat, ids: seq<int>): State
    requires w < |s.workers|
    requires forall id | id in ids :: id in s.rows
  {
    var c := ClaimRows(s, now, ids);
    c.(workers := s.workers[w := s.workers[w].(phase := Publishing, clock := now)],
       groups := s.groups + Singles(w, Messages(c.rows, ids)))
  }

  // ---- The messages in hand -----------------------------------------------------------------

  function Bag(msgs: seq<Msg>): multiset<int> { if msgs == [] then multiset{} else multiset{msgs[0].id} + Bag(msgs[1..]) }

  /** How often the first n groups hold a message. */
  function HeldIn(groups: seq<Group>, n: nat, id: int): nat
    requires n <= |groups|
  {
    if n == 0 then 0 else HeldIn(groups, n - 1, id) + Bag(groups[n - 1].todo)[id]
  }

  /** How many claims of a message some relay has not settled. */
  function Held(groups: seq<Group>, id: int): nat { HeldIn(groups, |groups|, id) }

  /** What the first n groups lose when their owner crashes. */
  function Dropped(groups: seq<Group>, w: nat, n: nat): multiset<int>
    requires n <= |groups|
  {
    if n == 0 then multiset{}
    else Dropped(groups, w, n - 1) + if groups[n - 1].owner == w then Bag(groups[n - 1].todo) else multiset{}
  }

  lemma {:induction false} HeldSame(a: seq<Group>, b: seq<Group>, n: nat, id: int)
    requires n <= |a| && n <= |b| && forall i | 0 <= i < n :: a[i].todo == b[i].todo
    ensures HeldIn(a, n, id) == HeldIn(b, n, id)
  {
    if n > 0 { HeldSame(a, b, n - 1, id); }
  }

  lemma {:induction false} HeldUpdate(groups: seq<Group>, n: nat, i: nat, g: Group, id: int)
    requires i < n <= |groups|
    ensures HeldIn(groups[i := g], n, id) + Bag(groups[i].todo)[id] == HeldIn(groups, n, id) + Bag(g.todo)[id]
  {
    if i == n - 1 {
      HeldSame(groups, groups[i := g], n - 1, id);
    } else {
      HeldUpdate(groups, n - 1, i, g, id);
    }
  }

  lemma HeldKeyed(groups: seq<Group>, g: Group, id: int)
    ensures Held(groups + [g], id) == Held(groups, id) + Bag(g.todo)[id]
  {
    HeldSame(groups, groups + [g], |groups|, id);
  }

  lemma FirstSingle(groups: seq<Group>, w: nat, msgs: seq<Msg>)
    requires msgs != []
    ensures groups + Singles(w, msgs) == (groups + [Group(w, None, [msgs[0]], Ready)]) + Singles(w, msgs[1..])
    ensures Bag(msgs) == Bag([msgs[0]]) + Bag(msgs[1..])
  {
    var g, rest := Group(w, None, [msgs[0]], Ready), Singles(w, msgs[1..]);
    assert Singles(w, msgs) == [g] + rest;
    assert [msgs[0]][1..] == [];
    assert Bag(msgs) == multiset{msgs[0].id} + Bag(msgs[1..]);
    hide *;
    assert groups + ([g] + rest) == (groups + [g]) + rest;
  }

  lemma {:induction false} HeldSingles(groups: seq<Group>, w: nat, msgs: seq<Msg>, id: int)
    ensures Held(groups + Singles(w, msgs), id) == Held(groups, id) + Bag(msgs)[id]
    decreases |msgs|
  {
    if msgs == [] {
      assert groups + Singles(w, msgs) == groups;
    } else {
      hide *;
      var g := Group(w, None, [msgs[0]], Ready);
      FirstSingle(groups, w, msgs);
      HeldKeyed(groups, g, id);
      HeldSingles(groups + [g], w, msgs[1..], id);
    }
  }

  lemma {:induction false} HeldDropped(groups: seq<Group>, w: nat, n: nat, id: int)
    requires n <= |groups|
    ensures HeldIn(groups, n, id) == HeldIn(Emptied(groups, w), n, id) + Dropped(groups, w, n)[id]
  {
    assert Bag([]) == multiset{};
    hide Bag;
    if n > 0 { HeldDropped(groups, w, n - 1, id); }
  }

  lemma {:induction false} InBag(msgs: seq<Msg>, k: nat)
    requires k < |msgs|
    ensures msgs[k].id in Bag(msgs)
  {
    if k > 0 { InBag(msgs[1..], k - 1); }
  }

  lemma {:induction false} HeldHas(groups: seq<Group>, n: nat, i: nat, k: nat)
    requires i < n <= |groups| && k < |groups[i].todo|
    ensures HeldIn(groups, n, groups[i].todo[k].id) >= 1
  {
    if i == n - 1 {
      InBag(groups[i].todo, k);
    } else {
      HeldHas(groups, n - 1, i, k);
    }
  }

  lemma SettledHeld(groups: seq<Group>, g: nat, v: Verdict, id: int)
    requires g < |groups| && groups[g].todo != []
    ensures Held(groups, id) == Held(groups[g := AfterVerdict(groups[g], v)], id) + if groups[g].todo[0].id == id then 1 else 0
  {
    HeldUpdate(groups, |groups|, g, AfterVerdict(groups[g], v), id);
  }

  /** A claim puts each message in hand once. */
  lemma {:induction false} BagOfClaim(rows: Table, ids: seq<int>, id: int)
    requires Increasing(ids) && forall i | i in ids :: i in rows
    ensures Bag(Messages(rows, ids))[id] == multiset(ids)[id] == if id in ids then 1 else 0
    decreases |ids|
  {
    if ids != [] {
      assert ids == [ids[0]] + ids[1..];
      assert ids[0] !in ids[1..];
      assert forall i :: i in ids[1..] ==> i in ids;
      assert Messages(rows, ids)[1..] == Messages(rows, ids[1..]);
      BagOfClaim(rows, ids[1..], id);
    }
  }

  // ---- Runs ---------------------------------------------------------------------------------

  predicate Possible(s: State, steps: seq<Step>)
    decreases |steps|
  {
    steps == [] || (Enabled(s, steps[0]) && Possible(Apply(s, steps[0]), steps[1..]))
  }

  function After(s: State, steps: seq<Step>): State
    requires Possible(s, steps)
    decreases |steps|
  {
    if steps == [] then s else After(Apply(s, steps[0]), steps[1..])
  }
}
