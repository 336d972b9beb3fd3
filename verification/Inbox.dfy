/** The inbox: the dedupe rows a consumer writes inside its own transaction. */
module Inbox {
  import opened Options

  datatype Key = Key(message: int, handler: string)

  datatype Row = Row(receivedAt: nat, processedAt: Option<nat>, attempts: nat)

  type Table = map<Key, Row>

  predicate Processed(t: Table, k: Key) { k in t && t[k].processedAt.Some? }

  /** What a claim leaves behind when the handler's transaction commits. */
  function WithSuccess(t: Table, k: Key, now: nat): Table {
    if k in t then t[k := t[k].(processedAt := Some(now), attempts := t[k].attempts + 1)]
    else t[k := Row(now, Some(now), 1)]
  }

  /** A recorded failure counts the attempt; it never reopens a processed message and never blocks a later claim. */
  function WithFailure(t: Table, k: Key, now: nat): Table {
    if k !in t then t[k := Row(now, None, 1)]
    else if t[k].processedAt.None? then t[k := t[k].(attempts := t[k].attempts + 1)]
    else t
  }

  function AttemptsIn(t: Table, k: Key): nat { if k in t then t[k].attempts else 0 }

  function Expired(t: Table, before: nat): set<Key> { set k | k in t && t[k].receivedAt < before }

  class InboxTable {
    var rows: Table

    constructor ()
      ensures rows == map[]
    {
      rows := map[];
    }

    /** Reports false for a message this handler already processed. */
    method Claim(k: Key, now: nat) returns (claimed: bool)
      modifies this
      ensures claimed <==> !Processed(old(rows), k)
      ensures rows == if claimed then WithSuccess(old(rows), k, now) else old(rows)
      ensures claimed ==> k in rows && rows[k] == Row(if k in old(rows) then old(rows)[k].receivedAt else now, Some(now), AttemptsIn(old(rows), k) + 1)
      ensures rows - {k} == old(rows) - {k}
    {
      if k !in rows {
        rows := rows[k := Row(now, Some(now), 1)];
        return true;
      }
      claimed := rows[k].processedAt.None?;
      if claimed {
        rows := rows[k := rows[k].(processedAt := Some(now), attempts := rows[k].attempts + 1)];
      }
    }

    method Fail(k: Key, now: nat)
      modifies this
      ensures rows == WithFailure(old(rows), k, now)
      ensures forall j :: Processed(rows, j) <==> Processed(old(rows), j)
      ensures rows - {k} == old(rows) - {k} && AttemptsIn(rows, k) == AttemptsIn(old(rows), k) + if Processed(old(rows), k) then 0 else 1
      ensures k in rows && rows[k].receivedAt == if k in old(rows) then old(rows)[k].receivedAt else now
    {
      if k !in rows {
        rows := rows[k := Row(now, None, 1)];
      } else if rows[k].processedAt.None? {
        rows := rows[k := rows[k].(attempts := rows[k].attempts + 1)];
      }
    }

    method Purge(before: nat) returns (n: nat)
      modifies this
      ensures rows == old(rows) - Expired(old(rows), before)
      ensures forall k :: k in rows <==> k in old(rows) && old(rows)[k].receivedAt >= before
      ensures n == |old(rows)| - |rows|
    {
      var gone := Expired(rows, before);
      n := |gone|;
      assert (rows - gone).Keys + gone == rows.Keys;
      rows := rows - gone;
    }
  }
}
