/** The outbox table and what a relay does to it. */
module Outbox {
  // The outbox table and its partition leases, and the statements a relay runs on them.

  import opened Options

  /** One outbox row. The payload plays no part; times are clock readings. */
  datatype Row = Row(key: Option<string>, processedAt: Option<nat>, deadAt: Option<nat>, claimedUntil: Option<nat>, attempts: int)

  type Table = map<int, Row>

  datatype Lease = Lease(holder: nat, until: nat)

  type Leases = map<string, Lease>

  datatype Config = Config(lease: nat, batchSize: nat, maxAttempts: int)

  predicate Open(row: Row) { row.processedAt.None? && row.deadAt.None? }

  predicate Claimable(row: Row, now: nat) {
    Open(row) && (row.claimedUntil.None? || row.claimedUntil.value < now)
  }

  // ---- Partition leases ---------------------------------------------------------------------

  predicate LeaseFree(parts: Leases, key: string, now: nat) { key in parts ==> parts[key].until < now }

  function Leased(parts: Leases, key: string, w: nat, until: nat): Leases { parts[key := Lease(w, until)] }

  /** Only the holder can release. */
  function Released(parts: Leases, key: string, w: nat): Leases {
    if key in parts && parts[key].holder == w then parts - {key} else parts
  }

  // ---- Claiming rows ------------------------------------------------------------------------

  /** A claimed message: the row and the attempt this claim counted. */
  datatype Msg = Msg(id: int, attempts: int)

  function ClaimedRow(row: Row, until: nat): Row {
    row.(claimedUntil := Some(until), attempts := row.attempts + 1)
  }

  function Claimed(rows: Table, ids: seq<int>, until: nat): Table
    requires forall id | id in ids :: id in rows
  {
    map id | id in rows :: if id in ids then ClaimedRow(rows[id], until) else rows[id]
  }

  function MessageOf(rows: Table, ids: seq<int>, i: nat): (m: Msg)
    requires i < |ids| && forall id | id in ids :: id in rows
  {
    var id := ids[i];
    assert id in ids;
    Msg(id, rows[id].attempts)
  }

  function Messages(rows: Table, ids: seq<int>): (ms: seq<Msg>)
    requires forall id | id in ids :: id in rows
    ensures |ms| == |ids| && forall i | 0 <= i < |ids| :: ms[i] == MessageOf(rows, ids, i)
  {
    seq(|ids|, i requires 0 <= i < |ids| => MessageOf(rows, ids, i))
  }

  predicate Increasing(ids: seq<int>) { forall i, j | 0 <= i < j < |ids| :: ids[i] < ids[j] }

  predicate Wanted(rows: Table, key: Option<string>, now: nat, id: int) {
    id in rows && rows[id].key == key && Claimable(rows[id], now)
  }

  /** What one claim statement may return: some claimable rows of one partition, in id order. SKIP LOCKED may skip any. */
  predicate MayClaim(rows: Table, key: Option<string>, now: nat, limit: nat, ids: seq<int>) {
    Increasing(ids) && |ids| <= limit && forall id | id in ids :: Wanted(rows, key, now, id)
  }

  /** What it returns when no other statement holds a lock on the partition: the oldest claimable rows. */
  ghost predicate OldestFirst(rows: Table, key: Option<string>, now: nat, limit: nat, ids: seq<int>) {
    && MayClaim(rows, key, now, limit, ids)
    && (forall id | Wanted(rows, key, now, id) :: id in ids || (|ids| == limit && forall c | c in ids :: c < id))
  }

  /** The first claimable ids among the first n of a list, up to the limit: ORDER BY id LIMIT. */
  function Oldest(rows: Table, key: Option<string>, now: nat, limit: nat, ordered: seq<int>, n: nat): (ids: seq<int>)
    requires n <= |ordered|
    ensures forall id | id in ids :: Wanted(rows, key, now, id)
  {
    if n == 0 then []
    else
      var ids := Oldest(rows, key, now, limit, ordered, n - 1);
      if |ids| < limit && Wanted(rows, key, now, ordered[n - 1]) then ids + [ordered[n - 1]] else ids
  }

  lemma {:induction false} OldestIsBelow(rows: Table, key: Option<string>, now: nat, limit: nat, ordered: seq<int>, n: nat)
    requires n <= |ordered| && Increasing(ordered)
    ensures var ids := Oldest(rows, key, now, limit, ordered, n);
            Increasing(ids) && |ids| <= limit && (forall id, j | id in ids && n <= j < |ordered| :: id < ordered[j])
  {
    if n > 0 {
      OldestIsBelow(rows, key, now, limit, ordered, n - 1);
      var before, ids := Oldest(rows, key, now, limit, ordered, n - 1), Oldest(rows, key, now, limit, ordered, n);
      forall i, j | 0 <= i < j < |ids| ensures ids[i] < ids[j] {
        assert ids[i] == before[i] && before[i] in before;
      }
    }
  }

  lemma {:induction false} OldestMissesNone(rows: Table, key: Option<string>, now: nat, limit: nat, ordered: seq<int>, n: nat, i: nat)
    requires i < n <= |ordered| && Increasing(ordered) && Wanted(rows, key, now, ordered[i])
    ensures var ids := Oldest(rows, key, now, limit, ordered, n);
            ordered[i] in ids || (|ids| == limit && forall c | c in ids :: c < ordered[i])
  {
    OldestIsBelow(rows, key, now, limit, ordered, n);
    OldestIsBelow(rows, key, now, limit, ordered, n - 1);
    if i < n - 1 { OldestMissesNone(rows, key, now, limit, ordered, n - 1, i); }
  }

  lemma OldestIsOldestFirst(rows: Table, key: Option<string>, now: nat, limit: nat, ordered: seq<int>)
    requires Increasing(ordered) && forall id :: id in ordered <==> id in rows
    ensures OldestFirst(rows, key, now, limit, Oldest(rows, key, now, limit, ordered, |ordered|))
  {
    var n := |ordered|;
    OldestIsBelow(rows, key, now, limit, ordered, n);
    forall id | Wanted(rows, key, now, id)
      ensures var ids := Oldest(rows, key, now, limit, ordered, n); id in ids || (|ids| == limit && forall c | c in ids :: c < id)
    {
      assert id in ordered;
      var i :| 0 <= i < n && ordered[i] == id;
      OldestMissesNone(rows, key, now, limit, ordered, n, i);
    }
  }

  lemma ClaimOneMore(rows: Table, ids: seq<int>, c: int, until: nat)
    requires (forall id | id in ids :: id in rows) && c in rows && c !in ids
    ensures Claimed(rows, ids, until)[c := ClaimedRow(rows[c], until)] == Claimed(rows, ids + [c], until)
    ensures Messages(Claimed(rows, ids + [c], until), ids + [c]) ==
            Messages(Claimed(rows, ids, until), ids) + [Msg(c, rows[c].attempts + 1)]
  {
    var more := ids + [c];
    assert forall id :: id in more <==> id in ids || id == c;
    forall i | 0 <= i < |ids|
      ensures MessageOf(Claimed(rows, more, until), more, i) == MessageOf(Claimed(rows, ids, until), ids, i)
    {
      assert more[i] == ids[i];
    }
  }

  // ---- Recording an outcome -----------------------------------------------------------------

  datatype Verdict =
    | Acked(at: nat)
    | Unheard(at: nat) // acked, but the statement reported an error all the same
    | Failed(at: nat)
    | GivenBack
    | Lost          // the statement failed; the row keeps its lease until it expires

  predicate Dies(cfg: Config, m: Msg) { cfg.maxAttempts >= 1 && m.attempts >= cfg.maxAttempts }

  function SettledRow(cfg: Config, row: Row, m: Msg, v: Verdict): Row {
    match v
    case Acked(at) => row.(processedAt := Some(at), claimedUntil := None)
    case Unheard(at) => row.(processedAt := Some(at), claimedUntil := None)
    case Failed(at) => row.(claimedUntil := None, deadAt := if Dies(cfg, m) then Some(at) else row.deadAt)
    case GivenBack => row.(claimedUntil := None, attempts := row.attempts - 1)
    case Lost => row
  }

  function Settled(cfg: Config, rows: Table, m: Msg, v: Verdict): Table {
    if m.id in rows then rows[m.id := SettledRow(cfg, rows[m.id], m, v)] else rows
  }

  // ---- The relay's own loops, run alone -----------------------------------------------------

  /** How a publish call and the statement that records it end, for each message: `heard` when one that took effect says so. */
  datatype Attempt = Attempt(published: bool, recorded: bool, heard: bool)

  function VerdictOf(a: Attempt, now: nat): Verdict {
    if !a.recorded then Lost else if !a.published then Failed(now) else if a.heard then Acked(now) else Unheard(now)
  }

  /** The loop goes on past a message that was published and acked, as far as it knows. */
  predicate GoesOn(a: Attempt) { a.published && a.recorded && a.heard }

  /** The rows after one group: publish in order, stop at the first failure, give the rest back. */
  function GroupRows(cfg: Config, rows: Table, group: seq<Msg>, now: nat, attempt: int -> Attempt): Table
    decreases |group|
  {
    if group == [] then rows
    else
      var a := attempt(group[0].id);
      var next := Settled(cfg, rows, group[0], VerdictOf(a, now));
      if GoesOn(a) then GroupRows(cfg, next, group[1..], now, attempt)
      else GivenBackRows(cfg, next, group[1..], attempt)
  }

  function GivenBackRows(cfg: Config, rows: Table, group: seq<Msg>, attempt: int -> Attempt): Table
    decreases |group|
  {
    if group == [] then rows
    else
      var v := if attempt(group[0].id).recorded then GivenBack else Lost;
      GivenBackRows(cfg, Settled(cfg, rows, group[0], v), group[1..], attempt)
  }

  function PublishedCount(group: seq<Msg>, attempt: int -> Attempt): nat
    decreases |group|
  {
    if group == [] || !GoesOn(attempt(group[0].id)) then 0
    else 1 + PublishedCount(group[1..], attempt)
  }

  /** The outbox of one database, as one relay sees it when it runs alone. */
  class Relay {
    const cfg: Config
    const id: nat
    var rows: Table
    var parts: Leases

    constructor (cfg: Config, id: nat, rows: Table, parts: Leases)
      ensures this.cfg == cfg && this.id == id && this.rows == rows && this.parts == parts
    {
      this.cfg, this.id, this.rows, this.parts := cfg, id, rows, parts;
    }

    method LeasePartition(key: string, now: nat) returns (won: bool)
      modifies this`parts
      ensures won <==> key !in old(parts) || old(parts)[key].until < now
      ensures parts == if won then old(parts)[key := Lease(id, now + cfg.lease)] else old(parts)
    {
      won := key !in parts || parts[key].until < now;
      if won { parts := parts[key := Lease(id, now + cfg.lease)]; }
    }

    method ReleasePartition(key: string)
      modifies this`parts
      ensures key in parts <==> key in old(parts) && old(parts)[key].holder != id
      ensures parts - {key} == old(parts) - {key} && (key in parts ==> parts[key] == old(parts)[key])
    {
      if key in parts && parts[key].holder == id { parts := parts - {key}; }
    }

    /** Walks the row ids in order and claims the first open ones. */
    method ClaimRows(key: Option<string>, now: nat, limit: nat, ordered: seq<int>) returns (msgs: seq<Msg>, ghost ids: seq<int>)
      requires Increasing(ordered) && forall i :: i in ordered <==> i in rows
      modifies this`rows
      ensures OldestFirst(old(rows), key, now, limit, ids)
      ensures rows == Claimed(old(rows), ids, now + cfg.lease) && msgs == Messages(rows, ids)
      ensures forall i | i in ids :: rows[i] == old(rows)[i].(claimedUntil := Some(now + cfg.lease), attempts := old(rows)[i].attempts + 1)
      ensures rows.Keys == old(rows).Keys && forall i | i in rows && i !in ids :: rows[i] == old(rows)[i]
    {
      msgs, ids := [], [];
      for i := 0 to |ordered|
        invariant ids == Oldest(old(rows), key, now, limit, ordered, i) && |msgs| == |ids|
        invariant rows == Claimed(old(rows), ids, now + cfg.lease) && msgs == Messages(rows, ids)
      {
        OldestIsBelow(old(rows), key, now, limit, ordered, i);
        var c := ordered[i];
        assert c in ordered;
        if |msgs| < limit && Wanted(rows, key, now, c) {
          ClaimOneMore(old(rows), ids, c, now + cfg.lease);
          rows := rows[c := ClaimedRow(rows[c], now + cfg.lease)];
          msgs, ids := msgs + [Msg(c, rows[c].attempts)], ids + [c];
        }
      }
      OldestIsOldestFirst(old(rows), key, now, limit, ordered);
    }

    /** Gives back the messages that were claimed but never tried. */
    method GiveBack(msgs: seq<Msg>, attempt: int -> Attempt)
      modifies this`rows
      ensures rows == GivenBackRows(cfg, old(rows), msgs, attempt)
    {
      for i := 0 to |msgs|
        invariant GivenBackRows(cfg, rows, msgs[i..], attempt) == GivenBackRows(cfg, old(rows), msgs, attempt)
      {
        assert msgs[i..][0] == msgs[i] && msgs[i..][1..] == msgs[i + 1..];
        rows := Settled(cfg, rows, msgs[i], if attempt(msgs[i].id).recorded then GivenBack else Lost);
      }
      assert msgs[|msgs|..] == [];
    }

    method PublishGroup(group: seq<Msg>, now: nat, attempt: int -> Attempt) returns (published: nat)
      modifies this`rows
      ensures rows == GroupRows(cfg, old(rows), group, now, attempt)
      ensures published == PublishedCount(group, attempt)
    {
      published := 0;
      for i := 0 to |group|
        invariant GroupRows(cfg, rows, group[i..], now, attempt) == GroupRows(cfg, old(rows), group, now, attempt)
        invariant published + PublishedCount(group[i..], attempt) == PublishedCount(group, attempt)
      {
        var msg, a := group[i], attempt(group[i].id);
        assert group[i..][0] == msg && group[i..][1..] == group[i + 1..];
        rows := Settled(cfg, rows, msg, VerdictOf(a, now));
        if !GoesOn(a) {
          GiveBack(group[i + 1..], attempt);
          return;
        }
        published := published + 1;
      }
      assert group[|group|..] == [];
    }
  }

  predicate DistinctMessages(group: seq<Msg>) { forall i, j | 0 <= i < j < |group| :: group[i].id != group[j].id }

  /** What the statement that gives a message back leaves in its row. */
  function BackOrKept(row: Row, recorded: bool): Row {
    if recorded then row.(claimedUntil := None, attempts := row.attempts - 1) else row
  }

  lemma {:induction false} GivenBackEach(cfg: Config, rows: Table, group: seq<Msg>, attempt: int -> Attempt, id: int)
    requires DistinctMessages(group) && (forall m | m in group :: m.id in rows) && id in rows
    ensures GivenBackRows(cfg, rows, group, attempt).Keys == rows.Keys
    ensures GivenBackRows(cfg, rows, group, attempt)[id] ==
            if exists m | m in group :: m.id == id then BackOrKept(rows[id], attempt(id).recorded) else rows[id]
    decreases |group|
  {
    if group != [] {
      assert group[0] in group;
      forall i | 0 <= i < |group[1..]| ensures group[1..][i].id != group[0].id {
        assert group[1..][i] == group[i + 1];
      }
      var v := if attempt(group[0].id).recorded then GivenBack else Lost;
      GivenBackEach(cfg, Settled(cfg, rows, group[0], v), group[1..], attempt, id);
      assert forall m :: m in group <==> m == group[0] || m in group[1..];
    }
  }

  /**
   * One group on its own: with p messages published and acked, as far as the loop knows, those p are processed. The one after
   * them keeps its claim if recording its outcome failed, and is processed if that only seemed to fail; otherwise it has failed.
   * Every message behind it gets its attempt and its lease back.
   */
  lemma {:induction false} GroupOutcome(cfg: Config, rows: Table, group: seq<Msg>, now: nat, attempt: int -> Attempt, i: nat)
    requires DistinctMessages(group) && i < |group|
    requires forall m | m in group :: m.id in rows
    ensures var after := GroupRows(cfg, rows, group, now, attempt);
            var p := PublishedCount(group, attempt);
            var id := group[i].id;
            && after.Keys == rows.Keys && p <= |group|
            && after[id] == (if i < p then rows[id].(processedAt := Some(now), claimedUntil := None)
                             else if i > p then BackOrKept(rows[id], attempt(id).recorded)
                             else if !attempt(id).recorded then rows[id]
                             else if attempt(id).published then rows[id].(processedAt := Some(now), claimedUntil := None)
                             else SettledRow(cfg, rows[id], group[i], Failed(now)))
    decreases |group|
  {
    var a := attempt(group[0].id);
    var next := Settled(cfg, rows, group[0], VerdictOf(a, now));
    assert group[0] in group && group[i] in group;
    forall j | 0 <= j < |group[1..]| ensures group[1..][j].id != group[0].id && group[1..][j].id in next {
      assert group[1..][j] == group[j + 1];
      assert group[j + 1] in group;
    }
    if GoesOn(a) {
      if i > 0 {
        GroupOutcome(cfg, next, group[1..], now, attempt, i - 1);
      } else {
        OthersUntouched(cfg, next, group[1..], now, attempt, group[0].id);
      }
    } else {
      GivenBackEach(cfg, next, group[1..], attempt, group[i].id);
      assert i > 0 ==> group[i] == group[1..][i - 1];
    }
  }

  /** A group changes no row but its own messages'. */
  lemma {:induction false} OthersUntouched(cfg: Config, rows: Table, group: seq<Msg>, now: nat, attempt: int -> Attempt, id: int)
    requires id in rows && (forall m | m in group :: m.id != id && m.id in rows) && DistinctMessages(group)
    ensures var after := GroupRows(cfg, rows, group, now, attempt);
            after.Keys == rows.Keys && after[id] == rows[id] && PublishedCount(group, attempt) <= |group|
    decreases |group|
  {
    if group != [] {
      var a := attempt(group[0].id);
      var next := Settled(cfg, rows, group[0], VerdictOf(a, now));
      assert group[0] in group;
      forall j | 0 <= j < |group[1..]| ensures group[1..][j] == group[j + 1] && group[j + 1] in group {
      }
      if GoesOn(a) {
        OthersUntouched(cfg, next, group[1..], now, attempt, id);
      } else {
        GivenBackEach(cfg, next, group[1..], attempt, id);
      }
    }
  }
}
