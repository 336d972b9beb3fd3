/** A reader and its read model. */
module Projection {
  // A reader of the log that keeps its position with the read model it builds.

  import opened Options
  import opened OrderedSeqs
  import opened EventLog

  /** The committed read model and checkpoint of one projection, and the batch its projector has in hand. */
  datatype System<M> = System(log: Log, checkpoint: Position, model: M, hand: Option<seq<Event>>)

  datatype Move =
    | Write(step: Step)            // anything the writers do
    | Fetch(w: nat, limit: int)    // ReadAll from the stored checkpoint, under a snapshot with watermark w
    | Keep(k: nat)                 // handle k events and save their positions in one transaction that commits
    | Drop                         // the handler fails, or the transaction rolls back
    | Reset                        // clear the model and the checkpoint together

  function Fold<M>(f: (M, Event) -> M, init: M, es: seq<Event>): M {
    if es == [] then init else f(Fold(f, init, es[..|es| - 1]), es[|es| - 1])
  }

  predicate CanMove<M>(s: System<M>, move: Move) {
    match move
    case Write(step) => Enabled(s.log, step)
    case Fetch(w, _) => s.hand.None? && Watermark(s.log, w)
    case Keep(k) => s.hand.Some? && 1 <= k <= |s.hand.value|
    case Drop => s.hand.Some?
    case Reset => s.hand.None?
  }

  function Moved<M>(f: (M, Event) -> M, init: M, s: System<M>, move: Move): System<M>
    requires CanMove(s, move)
  {
    match move
    case Write(step) => s.(log := Apply(s.log, step))
    case Fetch(w, limit) => s.(hand := Some(ReadAll(s.log, w, s.checkpoint, limit)))
    case Keep(k) =>
      var part := s.hand.value[..k];
      s.(model := Fold(f, s.model, part), checkpoint := LastOf(part, s.checkpoint), hand := None)
    case Drop => s.(hand := None)
    case Reset => s.(model := init, checkpoint := START)
  }

  // ---- The invariant ------------------------------------------------------------------------

  /** Every prefix of the batch in hand continues the committed events at or before the checkpoint, now and later. */
  ghost predicate HandContinues(log: Log, from: Position, batch: seq<Event>) {
    forall k | 0 <= k <= |batch| ::
      Settled(log, LastOf(batch[..k], from)) && UpTo(log, LastOf(batch[..k], from)) == UpTo(log, from) + batch[..k]
  }

  /** The read model is the fold of exactly the committed events at or before the stored checkpoint. */
  ghost predicate Exact<M>(f: (M, Event) -> M, init: M, s: System<M>) {
    && Valid(s.log)
    && Settled(s.log, s.checkpoint)
    && s.model == Fold(f, init, UpTo(s.log, s.checkpoint))
    && (s.hand.Some? ==> HandContinues(s.log, s.checkpoint, s.hand.value))
  }

  lemma NothingBeforeStart(log: Log)
    requires Valid(log)
    ensures Settled(log, START) && UpTo(log, START) == []
  {
    forall e | e in log.rows ensures !Behind(START)(e) {
      assert Stamped(log, e.at.xid, e);
    }
    FilterNone(Behind(START), log.rows);
  }

  lemma {:induction false} FoldAppend<M>(f: (M, Event) -> M, init: M, a: seq<Event>, b: seq<Event>)
    ensures Fold(f, init, a + b) == Fold(f, Fold(f, init, a), b)
    decreases |b|
  {
    if b == [] {
      assert a + b == a;
    } else {
      FoldAppend(f, init, a, b[..|b| - 1]);
      assert (a + b)[..|a + b| - 1] == a + b[..|b| - 1];
    }
  }

  lemma FetchContinues(log: Log, w: nat, from: Position, limit: int)
    requires Valid(log) && Watermark(log, w) && Settled(log, from)
    ensures HandContinues(log, from, ReadAll(log, w, from, limit))
  {
    forall k | 0 <= k <= |ReadAll(log, w, from, limit)|
      ensures var part := ReadAll(log, w, from, limit)[..k];
              Settled(log, LastOf(part, from)) && UpTo(log, LastOf(part, from)) == UpTo(log, from) + part
    {
      PrefixContinues(log, w, from, limit, k);
    }
  }

  lemma WriteContinues(log: Log, step: Step, from: Position, batch: seq<Event>)
    requires Valid(log) && Enabled(log, step) && Settled(log, from) && HandContinues(log, from, batch)
    ensures HandContinues(Apply(log, step), from, batch)
  {
    SettledStays(log, step, from);
    forall k | 0 <= k <= |batch|
      ensures Settled(Apply(log, step), LastOf(batch[..k], from))
      ensures UpTo(Apply(log, step), LastOf(batch[..k], from)) == UpTo(Apply(log, step), from) + batch[..k]
    {
      SettledStays(log, step, LastOf(batch[..k], from));
    }
  }

  lemma ExactStays<M>(f: (M, Event) -> M, init: M, s: System<M>, move: Move)
    requires Exact(f, init, s) && CanMove(s, move)
    ensures Exact(f, init, Moved(f, init, s, move))
  {
    hide UpTo, ReadAll, Settled, Apply;
    match move
    case Write(step) =>
      ValidStep(s.log, step);
      SettledStays(s.log, step, s.checkpoint);
      if s.hand.Some? { WriteContinues(s.log, step, s.checkpoint, s.hand.value); }
    case Fetch(w, limit) => FetchContinues(s.log, w, s.checkpoint, limit);
    case Keep(k) => FoldAppend(f, init, UpTo(s.log, s.checkpoint), s.hand.value[..k]);
    case Drop =>
    case Reset => NothingBeforeStart(s.log);
  }

  function Ran<M>(f: (M, Event) -> M, init: M, moves: seq<Move>): System<M>
    requires CanRun(f, init, moves)
    decreases |moves|, 1
  {
    if moves == [] then System(EMPTY, START, init, None)
    else Moved(f, init, Ran(f, init, moves[..|moves| - 1]), moves[|moves| - 1])
  }

  predicate CanRun<M>(f: (M, Event) -> M, init: M, moves: seq<Move>)
    decreases |moves|, 0
  {
    moves == [] || (CanRun(f, init, moves[..|moves| - 1]) && CanMove(Ran(f, init, moves[..|moves| - 1]), moves[|moves| - 1]))
  }

  /** Exactly-once projection, over every run of writers, batches, failures, partial batches and resets. */
  lemma {:induction false} ProjectionIsExact<M>(f: (M, Event) -> M, init: M, moves: seq<Move>)
    requires CanRun(f, init, moves)
    ensures Exact(f, init, Ran(f, init, moves))
    ensures var s := Ran(f, init, moves); s.model == Fold(f, init, UpTo(s.log, s.checkpoint))
    decreases |moves|
  {
    if moves == [] {
      NothingBeforeStart(EMPTY);
    } else {
      ProjectionIsExact(f, init, moves[..|moves| - 1]);
      ExactStays(f, init, Ran(f, init, moves[..|moves| - 1]), moves[|moves| - 1]);
    }
  }

  // ---- The plain reader ---------------------------------------------------------------------

  /** A reader that only collects what it is given. */
  function Collect(): (seq<Event>, Event) -> seq<Event> {
    (seen: seq<Event>, e: Event) => seen + [e]
  }

  lemma {:induction false} CollectFold(es: seq<Event>)
    ensures Fold(Collect(), [], es) == es
    decreases |es|
  {
    if es != [] {
      var head, last := es[..|es| - 1], es[|es| - 1];
      CollectFold(head);
      assert Fold(Collect(), [], es) == Collect()(head, last) == head + [last];
    }
  }

  /**
   * Watermark safety: in every run, what the reader has been given is strictly ascending, without repeats, and holds a
   * committed event if and only if its position is at or before the reader's: nothing is skipped and nothing lands behind.
   */
  lemma ReaderIsExact(moves: seq<Move>)
    requires CanRun(Collect(), [], moves)
    ensures var s := Ran(Collect(), [], moves);
            && Ascending(InReadOrder(), s.model) && Distinct(s.model)
            && (forall e :: e in s.model <==> e in s.log.rows && AtOrBefore(e.at, s.checkpoint))
            && (forall x | x in s.log.open :: forall e | e in s.log.open[x].pending :: Before(s.checkpoint, e.at))
  {
    ProjectionIsExact(Collect(), [], moves);
    var s := Ran(Collect(), [], moves);
    CollectFold(UpTo(s.log, s.checkpoint));
    hide Ran, CanRun, Fold, Collect, HandContinues;
    ReadInOrder(s.log, s.checkpoint);
    NothingLandsBehind(s.log, s.checkpoint);
  }

  lemma ReadInOrder(log: Log, p: Position)
    requires Valid(log)
    ensures Ascending(InReadOrder(), UpTo(log, p)) && Distinct(UpTo(log, p))
    ensures forall e :: e in UpTo(log, p) <==> e in log.rows && AtOrBefore(e.at, p)
  {
    var es := UpTo(log, p);
    OrderedPart(log, Behind(p));
    hide Valid;
    forall i, j | 0 <= i < j < |es| ensures es[i] != es[j] { assert InReadOrder()(es[i], es[j]); }
  }

  lemma NothingLandsBehind(log: Log, p: Position)
    requires Valid(log) && Settled(log, p)
    ensures forall x | x in log.open :: forall e | e in log.open[x].pending :: Before(p, e.at)
  {
    forall x, e | x in log.open && e in log.open[x].pending ensures Before(p, e.at) { assert Stamped(log, x, e); }
  }

  /** A read under an older snapshot returns what a read under the same watermark returns now. */
  lemma SnapshotAgeIsIrrelevant(log: Log, step: Step, w: nat, from: Position, limit: int)
    requires Valid(log) && Enabled(log, step) && Watermark(log, w)
    ensures Watermark(Apply(log, step), w)
    ensures ReadAll(Apply(log, step), w, from, limit) == ReadAll(log, w, from, limit)
  {
    if step.Commit? {
      var late := log.open[step.xid].pending;
      forall e | e in late ensures !Ahead(from, w)(e) {
        assert Stamped(log, step.xid, e);
      }
      FilterNone(Ahead(from, w), late);
      FilterAppend(Ahead(from, w), log.rows, late);
      assert Filter(Ahead(from, w), log.rows) + [] == Filter(Ahead(from, w), log.rows);
    }
  }

  // ---- Progress -----------------------------------------------------------------------------

  /** Once the watermark has passed an unread event, ReadAll has something to return. */
  lemma UnreadIsFound(log: Log, w: nat, from: Position, limit: int, e: Event)
    requires Valid(log) && e in log.rows && e.at.xid < w && Before(from, e.at)
    ensures ReadAll(log, w, from, limit) != []
  {
    BatchIsNext(log, w, from, limit);
  }

  function Keeps(moves: seq<Move>): nat {
    if moves == [] then 0 else (if moves[0].Keep? then 1 else 0) + Keeps(moves[1..])
  }

  function Continue<M>(f: (M, Event) -> M, init: M, s: System<M>, moves: seq<Move>): System<M>
    requires CanContinue(f, init, s, moves)
    decreases |moves|
  {
    if moves == [] then s else Continue(f, init, Moved(f, init, s, moves[0]), moves[1..])
  }

  predicate CanContinue<M>(f: (M, Event) -> M, init: M, s: System<M>, moves: seq<Move>)
    decreases |moves|
  {
    moves == [] || (CanMove(s, moves[0]) && !moves[0].Reset? && CanContinue(f, init, Moved(f, init, s, moves[0]), moves[1..]))
  }

  /** The committed events the reader still has to pass to reach p. */
  function Distance(log: Log, from: Position, p: Position): int { |UpTo(log, p)| - |UpTo(log, from)| }

  lemma KeepAdvances<M>(f: (M, Event) -> M, init: M, s: System<M>, k: nat)
    requires Exact(f, init, s) && CanMove(s, Keep(k))
    ensures var s' := Moved(f, init, s, Keep(k)); |UpTo(s'.log, s'.checkpoint)| > |UpTo(s.log, s.checkpoint)|
  {
    hide UpTo;
  }

  lemma ShorterIsBehind(log: Log, p: Position, q: Position)
    requires Valid(log) && Before(p, q) && exists e | e in log.rows :: e.at == q
    ensures |UpTo(log, p)| < |UpTo(log, q)|
  {
    var e :| e in log.rows && e.at == q;
    OrderedPart(log, Behind(p));
    OrderedPart(log, Behind(q));
    var low, high := UpTo(log, p), UpTo(log, q);
    var lows, highs := set x | x in low, set x | x in high;
    assert lows <= highs && e in highs && e !in lows;
    SizeOf(low);
    SizeOf(high);
    assert lows < highs;
    ProperSubsetIsSmaller(lows, highs);
  }

  lemma ProperSubsetIsSmaller(a: set<Event>, b: set<Event>)
    requires a < b
    ensures |a| < |b|
  {
    assert |b| == |a| + |b - a| by { assert b == a + (b - a); }
    assert b - a != {};
  }

  lemma {:induction false} SizeOf(es: seq<Event>)
    requires Ascending(InReadOrder(), es)
    ensures |set e | e in es| == |es|
  {
    if es != [] {
      SizeOf(es[1..]);
      var rest := set e | e in es[1..];
      assert (set e | e in es) == {es[0]} + rest;
      forall i | 0 <= i < |es[1..]| ensures es[1..][i] != es[0] {
        AscendingAt(InReadOrder(), es, 0, i + 1);
      }
    }
  }

  /**
   * Progress: once no transaction at or below its id is open, an event is delivered within as many committed batches as
   * there are unread events up to it, whatever the writers and failed batches do in between.
   */
  lemma {:induction false} EventIsReached<M>(f: (M, Event) -> M, init: M, s: System<M>, moves: seq<Move>, e: Event)
    requires Exact(f, init, s) && e in s.log.rows && Settled(s.log, e.at)
    requires CanContinue(f, init, s, moves) && Keeps(moves) >= Distance(s.log, s.checkpoint, e.at)
    ensures var t := Continue(f, init, s, moves); AtOrBefore(e.at, t.checkpoint) && e in UpTo(t.log, t.checkpoint)
    decreases |moves|
  {
    if moves == [] {
      if Before(s.checkpoint, e.at) {
        ShorterIsBehind(s.log, s.checkpoint, e.at);
      }
      OrderedPart(s.log, Behind(s.checkpoint));
    } else {
      var s' := Moved(f, init, s, moves[0]);
      ExactStays(f, init, s, moves[0]);
      EventStaysAhead(f, init, s, moves[0], e);
      EventIsReached(f, init, s', moves[1..], e);
    }
  }

  lemma EventStaysAhead<M>(f: (M, Event) -> M, init: M, s: System<M>, move: Move, e: Event)
    requires Exact(f, init, s) && e in s.log.rows && Settled(s.log, e.at) && CanMove(s, move) && !move.Reset?
    ensures var s' := Moved(f, init, s, move);
            && e in s'.log.rows && Settled(s'.log, e.at)
            && Distance(s'.log, s'.checkpoint, e.at) <= Distance(s.log, s.checkpoint, e.at) - (if move.Keep? then 1 else 0)
  {
    match move
    case Write(step) =>
      SettledStays(s.log, step, e.at);
      SettledStays(s.log, step, s.checkpoint);
    case Keep(k) => KeepAdvances(f, init, s, k);
    case _ =>
  }

  // ---- Why a reset needs an idle projector --------------------------------------------------

  /** A reset between a fetch and its commit keeps the collected model exact if and only if nothing had been read before. */
  lemma ResetUnderABatch(s: System<seq<Event>>, k: nat)
    requires Exact(Collect(), [], s) && s.hand.Some? && 1 <= k <= |s.hand.value|
    ensures var broken := Moved(Collect(), [], s.(model := [], checkpoint := START), Keep(k));
            Exact(Collect(), [], broken) <==> UpTo(s.log, s.checkpoint) == []
  {
    var part := s.hand.value[..k];
    var broken := Moved(Collect(), [], s.(model := [], checkpoint := START), Keep(k));
    CollectFold(part);
    assert broken.checkpoint == LastOf(part, s.checkpoint);
    CollectFold(UpTo(s.log, broken.checkpoint));
    assert UpTo(s.log, s.checkpoint) + part == part <==> UpTo(s.log, s.checkpoint) == [] by {
      assert |UpTo(s.log, s.checkpoint) + part| == |UpTo(s.log, s.checkpoint)| + |part|;
    }
  }

  const E1 := Event("order", 1, Position(1, 1), 0)
  const E2 := Event("order", 2, Position(1, 2), 0)
  const TWO_EVENTS := Log(map[], 2, 3, [E1, E2])

  /** Two events are written, the first is read and kept, the second is fetched. */
  const SECOND_IN_HAND: seq<Move> :=
    [Write(Begin), Write(Insert(1, "order", 1, 0)), Write(Insert(1, "order", 2, 0)), Write(Commit(1)), Fetch(2, 1), Keep(1), Fetch(2, 1)]

  lemma TwoEventsRead()
    ensures ReadAll(TWO_EVENTS, 2, START, 1) == [E1] && ReadAll(TWO_EVENTS, 2, E1.at, 1) == [E2]
    ensures UpTo(TWO_EVENTS, E1.at) == [E1] && UpTo(TWO_EVENTS, E2.at) == [E1, E2]
  {
    FilterTwo(Ahead(START, 2));
    FilterTwo(Ahead(E1.at, 2));
    FilterTwo(Behind(E1.at));
    FilterTwo(Behind(E2.at));
    var lt := InReadOrder();
    assert Sort(lt, []) == [];
    assert [E1, E2][1..] == [E2] && [E1][1..] == [] && [E2][1..] == [];
    assert Sort(lt, [E2]) == [E2] && Sort(lt, [E1]) == [E1];
    assert Sort(lt, [E1, E2]) == [E1, E2];
  }

  lemma FilterTwo(keep: Event -> bool)
    ensures Filter(keep, [E1, E2]) == (if keep(E1) then [E1] else []) + if keep(E2) then [E2] else []
  {
    assert [E1, E2][1..] == [E2] && [E2][1..] == [];
    assert Filter(keep, []) == [];
  }

  lemma NextMove(moves: seq<Move>, s: System<seq<Event>>, move: Move)
    requires CanRun(Collect(), [], moves) && Ran(Collect(), [], moves) == s && CanMove(s, move)
    ensures CanRun(Collect(), [], moves + [move])
    ensures Ran(Collect(), [], moves + [move]) == Moved(Collect(), [], s, move)
  {
    assert (moves + [move])[..|moves|] == moves;
  }

  lemma TwoEventsWritten()
    ensures CanRun(Collect(), [], SECOND_IN_HAND[..4]) && Ran(Collect(), [], SECOND_IN_HAND[..4]) == System(TWO_EVENTS, START, [], None)
  {
    var m := SECOND_IN_HAND;
    var l1 := Apply(EMPTY, Begin);
    var l2 := Apply(l1, Insert(1, "order", 1, 0));
    assert l2.open[1].pending == [E1];
    var l3 := Apply(l2, Insert(1, "order", 2, 0));
    assert l3.open[1].pending == [E1, E2];
    assert Apply(l3, Commit(1)) == TWO_EVENTS;
    assert m[..0] == [] && m[..1] == m[..0] + [m[0]] && m[..2] == m[..1] + [m[1]] && m[..3] == m[..2] + [m[2]] && m[..4] == m[..3] + [m[3]];
    NextMove(m[..0], System(EMPTY, START, [], None), m[0]);
    NextMove(m[..1], System(l1, START, [], None), m[1]);
    NextMove(m[..2], System(l2, START, [], None), m[2]);
    NextMove(m[..3], System(l3, START, [], None), m[3]);
  }

  lemma SecondInHand()
    ensures CanRun(Collect(), [], SECOND_IN_HAND)
    ensures Ran(Collect(), [], SECOND_IN_HAND) == System(TWO_EVENTS, E1.at, [E1], Some([E2]))
  {
    var m := SECOND_IN_HAND;
    TwoEventsWritten();
    TwoEventsRead();
    assert m[..5] == m[..4] + [m[4]] && m[..6] == m[..5] + [m[5]] && m[..7] == m[..6] + [m[6]] && m[..7] == m;
    hide CanRun, Ran, ReadAll, UpTo;
    NextMove(m[..4], System(TWO_EVENTS, START, [], None), m[4]);
    CollectFold([E1]);
    assert [E1][..1] == [E1];
    NextMove(m[..5], System(TWO_EVENTS, START, [], Some([E1])), m[5]);
    NextMove(m[..6], System(TWO_EVENTS, E1.at, [E1], None), m[6]);
  }

  /** A run in which another process resets now: the batch in hand commits, and the first event is missing for good. */
  lemma ResetLosesAnEvent()
    ensures CanRun(Collect(), [], SECOND_IN_HAND)
    ensures var s := Ran(Collect(), [], SECOND_IN_HAND).(model := [], checkpoint := START);
            && CanMove(s, Keep(1))
            && var end := Moved(Collect(), [], s, Keep(1)); end.model == [E2] && UpTo(end.log, end.checkpoint) == [E1, E2]
  {
    SecondInHand();
    TwoEventsRead();
    CollectFold([E2]);
    hide CanRun, Ran, UpTo, ReadAll;
    assert [E2][..1] == [E2];
  }
}
