/** From producer to effect. */
module Delivery {
  // The whole pipeline: producers and relays on one side, a transport that redelivers as it likes, and handlers that
  // claim in the inbox inside the transaction that makes their effect.

  import Inbox
  import Relay = RelayProtocol
  import Runs = RelayRuns
  import Outbox

  /** `open` is the handler transactions in progress, each holding the lock on one inbox row. */
  datatype System = System(relay: Relay.State, inbox: Inbox.Table, open: map<nat, Inbox.Key>,
                           effects: multiset<Inbox.Key>, purged: multiset<Inbox.Key>)

  datatype Step =
    | RelayStep(step: Relay.Step)
    | HandlerClaim(h: nat, key: Inbox.Key)
    | HandlerCommit(h: nat, at: nat)
    | HandlerRollback(h: nat)
    | RecordFailure(key: Inbox.Key, at: nat)
    | Purge(before: nat)

  function Start(cfg: Outbox.Config, replicas: nat): System {
    System(Relay.Start(cfg, replicas), map[], map[], multiset{}, multiset{})
  }

  predicate Locked(s: System, key: Inbox.Key) { exists h | h in s.open :: s.open[h] == key }

  /** A transport delivers only what was sent; a statement on a locked inbox row waits for the transaction that holds it. */
  predicate Enabled(s: System, step: Step) {
    match step
    case RelayStep(step) => Relay.Enabled(s.relay, step)
    case HandlerClaim(h, key) => h !in s.open && key.message in s.relay.sent && !Locked(s, key) && !Inbox.Processed(s.inbox, key)
    case HandlerCommit(h, _) => h in s.open
    case HandlerRollback(h) => h in s.open
    case RecordFailure(key, _) => !Locked(s, key)
    case Purge(before) => forall k | k in Inbox.Expired(s.inbox, before) :: !Locked(s, k)
  }

  /** The effects a purge forgets: what it deletes no longer suppresses a redelivery. */
  function Forgotten(s: System, before: nat): set<Inbox.Key> {
    set k | k in Inbox.Expired(s.inbox, before) && Inbox.Processed(s.inbox, k)
  }

  function Apply(s: System, step: Step): System
    requires Enabled(s, step)
  {
    match step
    case RelayStep(step) => s.(relay := Relay.Apply(s.relay, step))
    case HandlerClaim(h, key) => s.(open := s.open[h := key])
    case HandlerCommit(h, at) =>
      s.(open := s.open - {h}, inbox := Inbox.WithSuccess(s.inbox, s.open[h], at), effects := s.effects + multiset{s.open[h]})
    case HandlerRollback(h) => s.(open := s.open - {h})
    case RecordFailure(key, at) => s.(inbox := Inbox.WithFailure(s.inbox, key, at))
    case Purge(before) =>
      s.(inbox := s.inbox - Inbox.Expired(s.inbox, before), purged := s.purged + multiset(Forgotten(s, before)))
  }

  predicate Possible(s: System, steps: seq<Step>)
    decreases |steps|
  {
    steps == [] || (Enabled(s, steps[0]) && Possible(Apply(s, steps[0]), steps[1..]))
  }

  function After(s: System, steps: seq<Step>): System
    requires Possible(s, steps)
    decreases |steps|
  {
    if steps == [] then s else After(Apply(s, steps[0]), steps[1..])
  }

  // ---- What every run keeps -----------------------------------------------------------------

  ghost predicate OneClaim(s: System) {
    && (forall h | h in s.open :: !Inbox.Processed(s.inbox, s.open[h]) && s.open[h].message in s.relay.sent)
    && (forall g, h | g in s.open && h in s.open && s.open[g] == s.open[h] :: g == h)
  }

  ghost predicate EffectCounted(s: System, key: Inbox.Key) {
    && s.effects[key] == s.purged[key] + (if Inbox.Processed(s.inbox, key) then 1 else 0)
    && (key in s.effects ==> key.message in s.relay.sent)
  }

  ghost predicate Exact(s: System) { OneClaim(s) && forall key :: EffectCounted(s, key) }

  lemma SentGrows(r: Relay.State, step: Relay.Step)
    requires Relay.Enabled(r, step)
    ensures r.sent <= Relay.Apply(r, step).sent
  {
  }

  lemma OneClaimStep(s: System, step: Step)
    requires OneClaim(s) && Enabled(s, step)
    ensures OneClaim(Apply(s, step))
  {
    if step.RelayStep? { SentGrows(s.relay, step.step); }
  }

  lemma EffectStep(s: System, step: Step, key: Inbox.Key)
    requires OneClaim(s) && EffectCounted(s, key) && Enabled(s, step)
    ensures EffectCounted(Apply(s, step), key)
  {
    if step.RelayStep? { SentGrows(s.relay, step.step); }
  }

  lemma {:induction false} RunKeeps(s: System, steps: seq<Step>)
    requires Exact(s) && Runs.Kept(s.relay) && Possible(s, steps)
    ensures Exact(After(s, steps)) && Runs.Kept(After(s, steps).relay)
    decreases |steps|
  {
    if steps != [] {
      var next := Apply(s, steps[0]);
      KeptStep(s, steps[0]);
      hide Runs.Kept, Enabled, Apply;
      OneClaimStep(s, steps[0]);
      forall key ensures EffectCounted(next, key) { EffectStep(s, steps[0], key); }
      RunKeeps(next, steps[1..]);
    }
  }

  lemma KeptStep(s: System, step: Step)
    requires Runs.Kept(s.relay) && Enabled(s, step)
    ensures Runs.Kept(Apply(s, step).relay)
  {
    hide Relay.Enabled, Relay.Apply, Runs.Produced, Runs.Accounted, Runs.Sound;
    if step.RelayStep? {
      Runs.ProducedStep(s.relay, step.step);
      Runs.AccountedStep(s.relay, step.step);
      Runs.SoundStep(s.relay, step.step);
    }
  }

  /**
   * Exactly-once effect from at-least-once delivery: over every run, with crashes, expired leases, stale relays, redelivery
   * and recorded failures, the effects of a handler on a message are its processed inbox row plus what a purge forgot;
   * and an effect only ever comes from a row whose producing transaction committed.
   */
  lemma EffectsAreExact(cfg: Outbox.Config, replicas: nat, steps: seq<Step>, key: Inbox.Key)
    requires Possible(Start(cfg, replicas), steps)
    ensures var s := After(Start(cfg, replicas), steps);
            && s.effects[key] == s.purged[key] + (if Inbox.Processed(s.inbox, key) then 1 else 0)
            && (key in s.effects ==> key.message in s.relay.sent && key.message in s.relay.rows && key.message !in s.relay.aborted)
  {
    Runs.StartKept(cfg, replicas);
    RunKeeps(Start(cfg, replicas), steps);
    assert EffectCounted(After(Start(cfg, replicas), steps), key);
  }

  predicate Purges(steps: seq<Step>) { exists step | step in steps :: step.Purge? }

  lemma {:induction false} NothingPurged(s: System, steps: seq<Step>)
    requires Possible(s, steps) && !Purges(steps)
    ensures After(s, steps).purged == s.purged
    decreases |steps|
  {
    if steps != [] {
      assert steps[0] in steps && forall step | step in steps[1..] :: step in steps;
      NothingPurged(Apply(s, steps[0]), steps[1..]);
    }
  }

  /** Without a purge each handler's effect on each message commits at most once, and exactly once when its row is processed. */
  lemma AtMostOnce(cfg: Outbox.Config, replicas: nat, steps: seq<Step>, key: Inbox.Key)
    requires Possible(Start(cfg, replicas), steps) && !Purges(steps)
    ensures var s := After(Start(cfg, replicas), steps);
            s.effects[key] <= 1 && (s.effects[key] == 1 <==> Inbox.Processed(s.inbox, key))
  {
    EffectsAreExact(cfg, replicas, steps, key);
    NothingPurged(Start(cfg, replicas), steps);
  }

  /** An inbox row, once processed, stays processed through everything but a purge. */
  lemma {:induction false} ProcessedForGood(s: System, steps: seq<Step>, key: Inbox.Key)
    requires Exact(s) && Runs.Kept(s.relay) && Possible(s, steps) && !Purges(steps) && Inbox.Processed(s.inbox, key)
    ensures Inbox.Processed(After(s, steps).inbox, key) && After(s, steps).effects[key] == s.effects[key]
    decreases |steps|
  {
    assert EffectCounted(s, key);
    RunKeeps(s, steps);
    NothingPurged(s, steps);
    assert EffectCounted(After(s, steps), key);
    StillProcessed(s, steps, key);
  }

  lemma {:induction false} StillProcessed(s: System, steps: seq<Step>, key: Inbox.Key)
    requires Possible(s, steps) && !Purges(steps) && Inbox.Processed(s.inbox, key)
    ensures Inbox.Processed(After(s, steps).inbox, key)
    decreases |steps|
  {
    if steps != [] {
      assert steps[0] in steps && forall step | step in steps[1..] :: step in steps;
      StillProcessed(Apply(s, steps[0]), steps[1..], key);
    }
  }
}
