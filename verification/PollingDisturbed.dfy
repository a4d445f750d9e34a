/**
 Runs of the long-poll layer in which a heartbeat answers a socket inside its own body.
 */
module PollingDisturbed {
  import opened PollingModel
  import opened PollingLinks
  import opened PollingRoles
  import opened PollingRuns

  /** A socket sends a request to a surrogate, and is answered while the body is coming in. */
  ghost function Prelude(s: Client, c: Client): seq<Step> {
    [New(s), New(c), HeadersStep(c, true, Http(true, false, s)), BodyStep(c, true), HeartbeatStep(c)]
  }

  /** The states that these steps lead through. */
  ghost function StatesOf(steps: seq<Step>): (r: seq<State>)
    ensures |r| == |steps| + 1
  {
    if steps == [] then [Init()] else
      var front, step := StatesOf(steps[..|steps| - 1]), steps[|steps| - 1];
      front + [if Possible(front[|steps| - 1], step) then Apply(front[|steps| - 1], step) else front[|steps| - 1]]
  }

  ghost function End(steps: seq<Step>): State { StatesOf(steps)[|steps|] }

  ghost predicate Reaches(steps: seq<Step>, st: State) { IsPossibleRun(StatesOf(steps), steps) && End(steps) == st }

  lemma NextStep(steps: seq<Step>, st: State, step: Step)
    requires Reaches(steps, st) && Possible(st, step)
    ensures Reaches(steps + [step], Apply(st, step))
  {
    var more := steps + [step];
    assert more[..|steps|] == steps;
    var sts, r := StatesOf(steps), StatesOf(more);
    assert r == sts + [Apply(st, step)];
    forall i | 0 <= i < |more| ensures Possible(r[i], more[i]) && r[i + 1] == Apply(r[i], more[i]) {
      if i < |steps| { assert Possible(sts[i], steps[i]) && sts[i + 1] == Apply(sts[i], steps[i]); }
    }
  }

  /** Where the prelude ends. */
  ghost function Answered(s: Client, c: Client): State {
    State(map[s := FreshView().(incoming := true),
              c := FreshView().(phase := InBody(s), request := Request(true, true, false))],
          [Begun(c), Response(c, S200, null, [])])
  }

  ghost function Waiting(s: Client, c: Client): State {
    State(map[s := FreshView(),
              c := FreshView().(peer := s, inRequest := true, phase := Await, request := Request(true, true, false))],
          [Begun(c)])
  }

  lemma HeadersReach(s: Client, c: Client)
    requires s.isSurrogate && !c.isSurrogate
    ensures Reaches([New(s), New(c), HeadersStep(c, true, Http(true, false, s))], Waiting(s, c))
  {
    assert IsPossibleRun([Init()], []);
    NextStep([], Init(), New(s));
    var st1 := State(map[s := FreshView()], []);
    assert Apply(Init(), New(s)) == st1;
    NextStep([New(s)], st1, New(c));
    var st2 := State(map[s := FreshView(), c := FreshView()], []);
    assert Apply(st1, New(c)) == st2;
    var h := HeadersStep(c, true, Http(true, false, s));
    NextStep([New(s), New(c)], st2, h);
    var st3 := Begin(SendError(st2, c, S200), c, true);
    assert SendError(st2, c, S200) == st2;
    assert FollowHeaders(st3, c, h.h).cl == Waiting(s, c).cl;
    assert [New(s)] + [New(c)] == [New(s), New(c)];
    assert [New(s), New(c)] + [h] == [New(s), New(c), h];
  }

  lemma PreludeReaches(s: Client, c: Client)
    requires s.isSurrogate && !c.isSurrogate
    ensures Reaches(Prelude(s, c), Answered(s, c))
  {
    var steps := [New(s), New(c), HeadersStep(c, true, Http(true, false, s))];
    HeadersReach(s, c);
    var st1 := Waiting(s, c);
    NextStep(steps, st1, BodyStep(c, true));
    var st2 := Apply(st1, BodyStep(c, true));
    assert st2.cl == map[s := FreshView().(incoming := true), c := At(st1, c).(phase := InBody(s))];
    NextStep(steps + [BodyStep(c, true)], st2, HeartbeatStep(c));
    assert Apply(st2, HeartbeatStep(c)).cl == Answered(s, c).cl;
    assert steps + [BodyStep(c, true)] + [HeartbeatStep(c)] == Prelude(s, c);
  }

  /** A message that is sent now is lost at the end of the body, though both ends are open. */
  lemma MessageLost(s: Client, c: Client, m: Message)
    requires s.isSurrogate && !c.isSurrogate
    ensures var steps := Prelude(s, c) + [SendStep(s, m, true), EndStep(c)];
            var st := End(steps);
            && IsPossibleRun(StatesOf(steps), steps)
            && At(st, s).life.Open? && SentTo(st.log, s) == [m] && Delivered(st.log, s) == At(st, s).wbuff == []
  {
    PreludeReaches(s, c);
    var st0 := Answered(s, c);
    NextStep(Prelude(s, c), st0, SendStep(s, m, true));
    var st1 := Apply(st0, SendStep(s, m, true));
    NextStep(Prelude(s, c) + [SendStep(s, m, true)], st1, EndStep(c));
    var st2 := Apply(st1, EndStep(c));
    assert Prelude(s, c) + [SendStep(s, m, true)] + [EndStep(c)] == Prelude(s, c) + [SendStep(s, m, true), EndStep(c)];
    assert At(st1, s).wbuff == [m] && At(st1, s).peer == null && !Answers(st1, c);
    assert st2.log == st1.log == [Begun(c), Response(c, S200, null, []), Sent(s, m)];
    ReadLog(c, s, m);
  }

  lemma ReadLog(c: Client, s: Client, m: Message)
    ensures var log := [Begun(c), Response(c, S200, null, []), Sent(s, m)]; SentTo(log, s) == [m] && Delivered(log, s) == []
  {
    var a, b := [Begun(c)], [Begun(c), Response(c, S200, null, [])];
    var log := [Begun(c), Response(c, S200, null, []), Sent(s, m)];
    assert a[..|a| - 1] == [] && b[..|b| - 1] == a && log[..|log| - 1] == b;
    assert SentTo(a, s) == SentTo(a[..|a| - 1], s) + [];
    assert SentTo(b, s) == SentTo(b[..|b| - 1], s) + [];
    assert SentTo(log, s) == SentTo(log[..|log| - 1], s) + [m];
    assert Delivered(a, s) == Delivered(a[..|a| - 1], s) + [];
    assert Delivered(b, s) == Delivered(b[..|b| - 1], s) + [];
  }

  /** If none is sent, the body ends by making a poller of a socket that has lost its request;
      and when the next request on it has a body for the same surrogate, the old poller and the
      new one are the same socket. */
  lemma OldPollerIsNewPoller(s: Client, c: Client)
    requires s.isSurrogate && !c.isSurrogate
    ensures var steps := Prelude(s, c) + [EndStep(c)];
            var st := End(steps);
            && IsPossibleRun(StatesOf(steps), steps)
            && At(st, s).life.Open? && At(st, s).peer == c && !At(st, c).inRequest && !Linked(st)
    ensures var steps := Prelude(s, c) + [EndStep(c), HeadersStep(c, true, Http(true, false, s)), BodyStep(c, true)];
            var st := End(steps);
            && IsPossibleRun(StatesOf(steps), steps)
            && At(st, c).phase == InBody(s) && At(st, s).peer == c
  {
    PreludeReaches(s, c);
    var st0 := Answered(s, c);
    NextStep(Prelude(s, c), st0, EndStep(c));
    var st1 := Apply(st0, EndStep(c));
    assert At(st1, s).peer == c && !At(st1, c).inRequest && At(st1, s).life.Open?;
    assert !PollerOk(st1, s) && !ClientOk(st1, s);
    var h := HeadersStep(c, true, Http(true, false, s));
    NextStep(Prelude(s, c) + [EndStep(c)], st1, h);
    var st2 := Apply(st1, h);
    NextStep(Prelude(s, c) + [EndStep(c)] + [h], st2, BodyStep(c, true));
    var st3 := Apply(st2, BodyStep(c, true));
    assert At(st3, c).phase == InBody(s) && At(st3, s).peer == c;
    assert Prelude(s, c) + [EndStep(c)] + [h] + [BodyStep(c, true)] == Prelude(s, c) + [EndStep(c), h, BodyStep(c, true)];
  }
}
