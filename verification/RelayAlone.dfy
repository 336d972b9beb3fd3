/** The publish loop as a run. */
module RelayAlone {
  // The publish loop of one relay is a run of the protocol: what it does to the rows alone is what its steps do to them.

  import opened Outbox
  import opened RelayProtocol

  function BackSteps(g: nat, group: seq<Msg>, attempt: int -> Attempt): seq<Step>
    decreases |group|
  {
    if group == [] then []
    else [Settle(g, if attempt(group[0].id).recorded then GivenBack else Lost)] + BackSteps(g, group[1..], attempt)
  }

  function PublishSteps(g: nat, group: seq<Msg>, now: nat, attempt: int -> Attempt): seq<Step>
    decreases |group|
  {
    if group == [] then []
    else
      var a := attempt(group[0].id);
      [Call(g), Return(g, a.published), Settle(g, VerdictOf(a, now))] +
      if GoesOn(a) then PublishSteps(g, group[1..], now, attempt) else BackSteps(g, group[1..], attempt)
  }

  lemma {:induction false} BackIsARun(s: State, g: nat, attempt: int -> Attempt)
    requires g < |s.groups| && (s.groups[g].todo != [] ==> s.groups[g].stage.Stopping?)
    ensures var steps := BackSteps(g, s.groups[g].todo, attempt);
            && Possible(s, steps)
            && After(s, steps).rows == GivenBackRows(s.cfg, s.rows, s.groups[g].todo, attempt)
    decreases |s.groups[g].todo|
  {
    var group := s.groups[g].todo;
    if group != [] {
      var steps := BackSteps(g, group, attempt);
      var next := Apply(s, steps[0]);
      assert steps[1..] == BackSteps(g, group[1..], attempt);
      assert next.groups[g].todo == group[1..] && next.groups[g].stage.Stopping?;
      BackIsARun(next, g, attempt);
    }
  }

  /** From the moment a group is claimed, over any outcomes of its publish calls and of the statements that record them. */
  lemma {:induction false} PublishGroupIsARun(s: State, g: nat, now: nat, attempt: int -> Attempt)
    requires g < |s.groups| && (s.groups[g].todo != [] ==> s.groups[g].stage.Ready?)
    ensures var steps := PublishSteps(g, s.groups[g].todo, now, attempt);
            && Possible(s, steps)
            && After(s, steps).rows == GroupRows(s.cfg, s.rows, s.groups[g].todo, now, attempt)
    decreases |s.groups[g].todo|
  {
    var group := s.groups[g].todo;
    if group != [] {
      var a := attempt(group[0].id);
      var steps := PublishSteps(g, group, now, attempt);
      var next := AfterOne(s, g, now, a);
      OneMessage(s, g, now, a, steps);
      if GoesOn(a) {
        assert steps[3..] == PublishSteps(g, group[1..], now, attempt);
        PublishGroupIsARun(next, g, now, attempt);
      } else {
        assert steps[3..] == BackSteps(g, group[1..], attempt);
        BackIsARun(next, g, attempt);
      }
    }
  }

  /** The state after one publish call and the statement that records it. */
  function AfterOne(s: State, g: nat, now: nat, a: Attempt): (next: State)
    requires Busy(s, g) && s.groups[g].stage.Ready?
    ensures next.rows == Settled(s.cfg, s.rows, s.groups[g].todo[0], VerdictOf(a, now)) && next.cfg == s.cfg
    ensures |next.groups| == |s.groups| && next.groups[g].todo == s.groups[g].todo[1..]
    ensures next.groups[g].stage == if GoesOn(a) then Ready else Stopping
  {
    Apply(Apply(Apply(s, Call(g)), Return(g, a.published)), Settle(g, VerdictOf(a, now)))
  }

  lemma OneMessage(s: State, g: nat, now: nat, a: Attempt, steps: seq<Step>)
    requires Busy(s, g) && s.groups[g].stage.Ready?
    requires |steps| >= 3 && steps[..3] == [Call(g), Return(g, a.published), Settle(g, VerdictOf(a, now))]
    ensures Possible(s, steps) <==> Possible(AfterOne(s, g, now, a), steps[3..])
    ensures Possible(s, steps) ==> After(s, steps) == After(AfterOne(s, g, now, a), steps[3..])
  {
    assert steps[0] == steps[..3][0] && steps[1] == steps[..3][1] && steps[2] == steps[..3][2];
    assert steps[1..][1..] == steps[2..] && steps[2..][1..] == steps[3..];
    var called := Apply(s, steps[0]);
    var returned := Apply(called, steps[1]);
    assert Enabled(called, steps[1]) && Enabled(returned, steps[2]) && Apply(returned, steps[2]) == AfterOne(s, g, now, a);
    hide Enabled, Apply, AfterOne, Possible, After;
    FirstStep(s, steps);
    FirstStep(called, steps[1..]);
    FirstStep(returned, steps[2..]);
  }

  lemma FirstStep(s: State, steps: seq<Step>)
    requires steps != [] && Enabled(s, steps[0])
    ensures Possible(s, steps) <==> Possible(Apply(s, steps[0]), steps[1..])
    ensures Possible(s, steps) ==> After(s, steps) == After(Apply(s, steps[0]), steps[1..])
  {
    hide Enabled, Apply;
  }
}
