/**
 What each entry point of the long-poll layer does for those who look on: which responses it
 writes, who waits afterwards, and who is closed.
 */
module PollingEffects {
  import opened PollingModel
  import opened PollingLinks
  import opened PollingRoles
  import opened PollingRuns

  /** What becomes of a socket that is answered: it is closed unless it is to be kept alive. */
  ghost function LifeAfter(v: View): Life {
    if v.request.keepAlive || !v.life.Open? then v.life else Closing
  }

  /** The request of `c` has ended with one response. */
  ghost predicate Ends(st: State, r: State, c: Client) {
    At(r, c).peer == null && !At(r, c).inRequest && At(r, c).life == LifeAfter(At(st, c))
  }

  ghost function One(st: State, c: Client?, status: Status): seq<Event> {
    if c != null && At(st, c).inRequest then [Response(c, status, null, [])] else []
  }

  // ----- sending -----

  /** A message goes to the poller at once, if no body is coming in and the poller is in a request;
      otherwise it is buffered, if at all. */
  lemma SendDoes(st: State, s: Client, m: Message, kept: bool)
    requires Sound(st) && IsSurrogate(st, s)
    ensures var r, p := HttpSend(st, s, m, kept), At(st, s).peer;
            if !At(st, s).incoming && p != null && At(st, p).inRequest then
              && r.log == st.log + [Sent(s, m), Response(p, S200, s, [m])]
              && At(r, s).wbuff == At(st, s).wbuff && At(r, s).peer == null && Ends(st, r, p)
            else
              && r.log == st.log + [Sent(s, m)]
              && At(r, s).wbuff == (if kept then At(st, s).wbuff + [m] else At(st, s).wbuff)
  {
    assert SoundAt(st, s);
    var p := At(st, s).peer;
    if p != null {
      assert SoundAt(st, p);
      assert st.log + [Sent(s, m)] + [Response(p, S200, s, [m])] == st.log + [Sent(s, m), Response(p, S200, s, [m])];
    }
  }

  // ----- bodies -----

  /** Which body begins, and for which surrogate. */
  ghost predicate Begins(st: State, step: Step, s: Client) {
    && step.BodyStep? && step.public && At(st, step.c).peer == s
    && At(st, step.c).request.isPost && !At(st, step.c).request.iframe
  }

  ghost predicate Finishes(st: State, step: Step, s: Client) {
    step.EndStep? && At(st, step.c).phase == InBody(s)
  }

  lemma BodyDoes(st: State, c: Client, public: bool)
    requires Sound(st) && Possible(st, BodyStep(c, public))
    ensures var r, v := DoBody(st, c, public), At(st, c);
            if public && !v.request.iframe && v.request.isPost && v.peer != null then
              && r.log == st.log && At(r, c) == v.(phase := InBody(v.peer))
              && At(r, v.peer) == At(st, v.peer).(incoming := true)
            else
              var status := if !public then S501 else if v.request.iframe then S200 else if !v.request.isPost then S405 else S403;
              && r.log == st.log + One(st, c, status)
              && At(r, c).phase.Idle? && (v.inRequest ==> Ends(st, r, c))
  {
    assert SoundAt(st, c);
    assert st.log + [] == st.log;
  }

  /** The messages of an ending body go out on the old poller, or there are none, and the socket of
      the body becomes the poller; the old one is sent away. */
  lemma EndWaits(st: State, c: Client)
    requires LinksOk(st) && IsSocket(st, c) && At(st, c).phase.InBody?
    requires var s := At(st, c).phase.surrogate;
             && At(st, s).life.Open? && At(st, c).life.Open?
             && (At(st, s).wbuff == [] || Answers(st, At(st, s).peer))
    ensures var s := At(st, c).phase.surrogate;
            var r, p, msgs := EndBody(st, c), At(st, s).peer, At(st, s).wbuff;
            && r.log == st.log + (if msgs == [] then One(st, p, S200) else [Response(p, S200, s, msgs)])
            && At(r, s).peer == c && At(r, s).wbuff == [] && !At(r, s).incoming
            && At(r, c).peer == s && At(r, c).inRequest && At(r, c).phase.Idle?
            && (Answers(st, p) ==> Ends(st, r, p))
  {
    EndFacts(st, c);
    var s := At(st, c).phase.surrogate;
    var st1 := Flush(SetPhase(st, c, Idle), s);
    if At(st, s).wbuff == [] {
      ReplaceWaits(st1, s, c);
    } else {
      var p := At(st, s).peer;
      var st2 := SendResponse(SetPeer(st1, s, null), p, S200, s, At(st, s).wbuff);
      ResponseSpares(SetPeer(st1, s, null), p, S200, s, At(st, s).wbuff, c);
      ReplaceWaits(st2, s, c);
    }
  }

  lemma ReplaceWaits(st: State, s: Client, c: Client)
    requires IsSocket(st, c) && IsSurrogate(st, s) && At(st, s).life.Open? && At(st, c).life.Open?
    requires var p := At(st, s).peer;
             p != null ==> IsSocket(st, p) && p != c && (At(st, p).peer != null ==> At(st, p).peer.isSurrogate)
    ensures var r, p := Replace(st, s, c), At(st, s).peer;
            && r.log == st.log + One(st, p, S200)
            && At(r, s) == At(st, s).(peer := c) && At(r, c) == At(st, c)
            && (Answers(st, p) ==> Ends(st, r, p))
            && (forall x: Client {:trigger At(r, x)} :: !x.isSurrogate && x != p ==> At(r, x) == At(st, x))
  {
    var p := At(st, s).peer;
    assert st.log + [] == st.log;
    if p != null { ResponseSpares(SetPeer(st, s, c), p, S200, null, [], c); }
  }

  /** They go out on the socket of the body, because the old poller, if any, cannot answer. */
  lemma EndAnswers(st: State, c: Client)
    requires LinksOk(st) && IsSocket(st, c) && At(st, c).phase.InBody?
    requires var s := At(st, c).phase.surrogate; At(st, s).wbuff != [] && !Answers(st, At(st, s).peer)
    ensures var s := At(st, c).phase.surrogate;
            var r := EndBody(st, c);
            && r.log == st.log + [Response(c, S200, s, At(st, s).wbuff)]
            && At(r, s).peer == null && At(r, s).wbuff == [] && !At(r, s).incoming
            && At(r, c).phase.Idle? && Ends(st, r, c)
  {
    EndFacts(st, c);
    var s := At(st, c).phase.surrogate;
    var st1 := SetPeer(Flush(SetPhase(st, c, Idle), s), s, null);
    ResponseSpares(st1, At(st, s).peer, S200, s, At(st, s).wbuff, c);
  }

  /** If either end is closing, the socket of the body is sent away with a 403, and so is the old
      poller unless it took the messages. */
  lemma EndCloses(st: State, c: Client)
    requires LinksOk(st) && IsSocket(st, c) && At(st, c).phase.InBody?
    requires var s := At(st, c).phase.surrogate;
             && (!At(st, s).life.Open? || !At(st, c).life.Open?)
             && (At(st, s).wbuff == [] || Answers(st, At(st, s).peer))
    ensures var s := At(st, c).phase.surrogate;
            var r, p, msgs := EndBody(st, c), At(st, s).peer, At(st, s).wbuff;
            && r.log == st.log + (if msgs == [] then [Response(c, S403, null, [])] + One(st, p, S403)
                                  else [Response(p, S200, s, msgs), Response(c, S403, null, [])])
            && At(r, s).peer == null && At(r, s).wbuff == [] && !At(r, s).incoming
            && At(r, c).phase.Idle? && Ends(st, r, c)
  {
    EndFacts(st, c);
    var s := At(st, c).phase.surrogate;
    var st1 := Flush(SetPhase(st, c, Idle), s);
    if At(st, s).wbuff == [] {
      ReplaceCloses(st1, s, c);
    } else {
      var p := At(st, s).peer;
      var st2 := SendResponse(SetPeer(st1, s, null), p, S200, s, At(st, s).wbuff);
      ResponseSpares(SetPeer(st1, s, null), p, S200, s, At(st, s).wbuff, c);
      ReplaceCloses(st2, s, c);
    }
  }

  lemma ReplaceCloses(st: State, s: Client, c: Client)
    requires IsSocket(st, c) && IsSurrogate(st, s) && (!At(st, s).life.Open? || !At(st, c).life.Open?) && At(st, c).inRequest
    requires At(st, c).peer != null ==> At(st, c).peer.isSurrogate
    requires var p := At(st, s).peer;
             p != null ==> IsSocket(st, p) && p != c && (At(st, p).peer != null ==> At(st, p).peer.isSurrogate)
    ensures var r, p := Replace(st, s, c), At(st, s).peer;
            && r.log == st.log + ([Response(c, S403, null, [])] + One(st, p, S403))
            && At(r, s) == At(st, s).(peer := null) && At(r, c).phase == At(st, c).phase && Ends(st, r, c)
  {
    var p := At(st, s).peer;
    var st1 := SetPeer(st, s, null);
    var st2 := SendError(st1, c, S403);
    if p != null {
      ResponseSpares(st1, c, S403, null, [], p);
      ResponseSpares(st2, p, S403, null, [], c);
    }
    assert st2.log == st.log + [Response(c, S403, null, [])];
  }

  lemma EndFacts(st: State, c: Client)
    requires LinksOk(st) && IsSocket(st, c) && At(st, c).phase.InBody?
    ensures var s := At(st, c).phase.surrogate;
            var p := At(st, s).peer;
            && IsSurrogate(st, s) && At(st, c).inRequest && p != c
            && (At(st, c).peer == s || (At(st, c).peer == null && !At(st, s).life.Open?))
            && (p != null ==> IsSocket(st, p) && (At(st, p).peer != null ==> At(st, p).peer.isSurrogate))
  {
    var s := At(st, c).phase.surrogate;
    assert ClientOk(st, c) && CalmAt(st, c) && ClientOk(st, s);
    DetachedKeeps(st, c);
    var p := At(st, s).peer;
    assert p != null ==> ClientOk(st, p);
  }

  lemma FailDoes(st: State, c: Client)
    requires LinksOk(st) && IsSocket(st, c) && At(st, c).phase.InBody?
    ensures var s := At(st, c).phase.surrogate;
            var r := FailBody(st, c);
            && r.log == st.log + [Response(c, S400, null, [])]
            && At(r, c).phase.Idle? && Ends(st, r, c)
            && !At(r, s).life.Open? && At(r, s).incoming == At(st, s).incoming && At(r, s).wbuff == At(st, s).wbuff
  {
    var s := At(st, c).phase.surrogate;
    assert ClientOk(st, c) && CalmAt(st, c) && ClientOk(st, s);
  }

  // ----- headers -----

  /** A request that is still open is answered before the new one begins. */
  lemma HeadersBegin(st: State, c: Client, keepAlive: bool)
    requires Sound(st) && IsSocket(st, c)
    ensures var r := Begin(SendError(st, c, S200), c, keepAlive);
            && r.log == st.log + One(st, c, S200) + [Begun(c)]
            && At(r, c).peer == null && At(r, c).inRequest && At(r, c).request.keepAlive == keepAlive
            && At(r, c).life == (if At(st, c).inRequest then LifeAfter(At(st, c)) else At(st, c).life)
            && At(r, c).phase == At(st, c).phase
            && forall s: Client {:trigger At(r, s)} :: s.isSurrogate ==> At(r, s).life == At(st, s).life
  {
    assert SoundAt(st, c);
    ResponseEffect(st, c, S200, null, []);
    assert SendError(st, c, S200).log == st.log + One(st, c, S200);
  }

  /** Then the headers decide. */
  lemma HeadersDo(st: State, c: Client, h: Headers)
    requires IsSocket(st, c) && At(st, c).peer == null && At(st, c).inRequest
    requires h.Http? && h.surrogate != null ==> h.surrogate != c
    ensures var r := FollowHeaders(st, c, h);
            match h
            case Malformed | BadLength | LengthRequired =>
              r.log == st.log && !At(r, c).life.Open? && At(r, c).inRequest && At(r, c).phase == At(st, c).phase
            case Upgrade => r.log == st.log && At(r, c).phase.Upgraded?
            case UpgradeRefused(status) =>
              r.log == st.log + [Response(c, status, null, [])] && At(r, c).phase.Await? && Ends(st, r, c)
            case Http(post, frame, s) =>
              && r.log == st.log && At(r, c).phase.Await? && At(r, c).inRequest
              && At(r, c).request == Request(At(st, c).request.keepAlive, post, frame)
              && At(r, c).peer == if s != null && At(st, s).life.Open? && At(st, c).life.Open? then s else null
  {
  }

  // ----- heartbeats and closing -----

  lemma HeartbeatDoes(st: State, c: Client)
    requires Sound(st) && Possible(st, HeartbeatStep(c))
    ensures var r := Heartbeat(st, c);
            && (At(st, c).peer == null ==> r.log == st.log && !At(r, c).life.Open?)
            && (At(st, c).peer != null && c.isSurrogate ==> r == st)
            && (At(st, c).peer != null && !c.isSurrogate ==> r.log == st.log + [Response(c, S200, null, [])] && Ends(st, r, c))
  {
    assert SoundAt(st, c);
  }

  /** A surrogate that is closed sends its poller away with a 403. */
  lemma SurrogateCloses(st: State, s: Client)
    requires Sound(st) && IsSurrogate(st, s)
    ensures var r, p := SurrogateHandler(st, s), At(st, s).peer;
            && r.log == st.log + One(st, p, S403)
            && At(r, s).life.Closed? && At(r, s).peer == null
            && (Answers(st, p) ==> Ends(st, r, p))
  {
    assert SoundAt(st, s);
    var p := At(st, s).peer;
    assert p != null ==> SoundAt(st, p);
    assert st.log + [] == st.log;
  }

  /** A socket that is closed is told why, if it asked for something, and takes its surrogate down. */
  lemma SocketCloses(st: State, c: Client, reason: Reason)
    requires Sound(st) && IsSocket(st, c)
    ensures var r, p := SocketHandler(st, c, reason), At(st, c).peer;
            var last := match reason
                        case BadRequest => One(st, c, S400)
                        case NoLength => One(st, c, S411)
                        case OutOfMemory => One(st, c, S413)
                        case Other => [];
            && r.log == st.log + last
            && At(r, c).life.Closed? && At(r, c).peer == null
            && (p != null ==> !At(r, p).life.Open?)
  {
    assert SoundAt(st, c);
    assert st.log + [] == st.log;
  }

  // ----- over all runs -----

  /** The last body that began or finished for a surrogate began; a body that is given up does not
      finish. */
  ghost predicate LastBegan(sts: seq<State>, steps: seq<Step>, k: nat, s: Client)
    requires k < |sts| && k <= |steps|
  {
    if k == 0 then false
    else if Begins(sts[k - 1], steps[k - 1], s) then true
    else if Finishes(sts[k - 1], steps[k - 1], s) then false
    else LastBegan(sts, steps, k - 1, s)
  }

  lemma FollowIncoming(st: State, c: Client, h: Headers, s: Client)
    requires IsSocket(st, c) && s.isSurrogate
    ensures At(FollowHeaders(st, c, h), s).incoming == At(st, s).incoming
  {
    if h.UpgradeRefused? {
      ResponseDelivers(SetPhase(st, c, Await), c, h.status, null, [], s);
    }
  }

  lemma HeadersIncoming(st: State, c: Client, keepAlive: bool, h: Headers, s: Client)
    requires IsSocket(st, c) && s.isSurrogate
    ensures At(DoHeaders(st, c, keepAlive, h), s).incoming == At(st, s).incoming
  {
    ResponseDelivers(st, c, S200, null, [], s);
    FollowIncoming(Begin(SendError(st, c, S200), c, keepAlive), c, h, s);
  }

  lemma SocketIncoming(st: State, step: Step, s: Client)
    requires Sound(st) && Possible(st, step) && s.isSurrogate
    requires step.New? || step.FailStep? || step.HeartbeatStep? || step.CloseStep?
    ensures At(Apply(st, step), s).incoming == At(st, s).incoming
  {
    match step
    case New(c) =>
    case FailStep(c) =>
      ResponseDelivers(Close(SetPhase(st, c, Idle), At(st, c).phase.surrogate), c, S400, null, [], s);
    case HeartbeatStep(c) =>
      if !c.isSurrogate { ResponseDelivers(st, c, S200, null, [], s); }
    case CloseStep(c) =>
  }

  lemma EndIncoming(st: State, c: Client, s: Client)
    requires Sound(st) && IsSocket(st, c) && At(st, c).phase.InBody? && s.isSurrogate
    ensures At(EndBody(st, c), s).incoming == (At(st, c).phase != InBody(s) && At(st, s).incoming)
  {
    var a := At(st, c).phase.surrogate;
    BodyDetails(st, c);
    BodyDelivers(Flush(SetPhase(st, c, Idle), a), a, c, At(st, a).wbuff, s);
  }

  lemma SendIncoming(st: State, a: Client, m: Message, kept: bool, s: Client)
    requires Sound(st) && IsSurrogate(st, a) && s.isSurrogate
    ensures At(HttpSend(st, a, m, kept), s).incoming == At(st, s).incoming
  {
    assert SoundAt(st, a);
    ResponseDelivers(SetPeer(Record(st, a, m), a, null), At(st, a).peer, S200, a, [m], s);
  }

  lemma IncomingStep(st: State, step: Step, s: Client)
    requires Sound(st) && Possible(st, step) && s.isSurrogate
    ensures At(Apply(st, step), s).incoming
         == if Begins(st, step, s) then true else if Finishes(st, step, s) then false else At(st, s).incoming
  {
    match step
    case HeadersStep(c, k, h) => HeadersIncoming(st, c, k, h, s);
    case BodyStep(c, public) =>
      assert SoundAt(st, c);
      BodyIncoming(st, c, public, s);
    case EndStep(c) => EndIncoming(st, c, s);
    case SendStep(a, m, kept) => SendIncoming(st, a, m, kept, s);
    case HandlerStep(c, reason) => HandlerIncoming(st, c, reason, s);
    case _ => SocketIncoming(st, step, s);
  }

  lemma BodyIncoming(st: State, c: Client, public: bool, s: Client)
    requires Sound(st) && Possible(st, BodyStep(c, public)) && s.isSurrogate && SoundAt(st, c)
    ensures At(DoBody(st, c, public), s).incoming == (Begins(st, BodyStep(c, public), s) || At(st, s).incoming)
  {
    var st0 := SetPhase(st, c, Idle);
    ResponseDelivers(st0, c, S501, null, [], s);
    ResponseDelivers(st0, c, S200, null, [], s);
    ResponseDelivers(st0, c, S405, null, [], s);
    ResponseDelivers(st0, c, S403, null, [], s);
  }

  lemma HandlerIncoming(st: State, c: Client, reason: Reason, s: Client)
    requires Sound(st) && c in st.cl && s.isSurrogate
    ensures At(CloseHandler(st, c, reason), s).incoming == At(st, s).incoming
  {
    assert SoundAt(st, c);
    if c.isSurrogate {
      ResponseDelivers(SetPeer(st, c, null), At(st, c).peer, S403, null, [], s);
    } else {
      FarewellEffect(SetPeer(st, c, null), c, reason);
    }
  }

  /** A surrogate holds back what is sent to it exactly while a body is coming in for it. */
  lemma {:induction false} IncomingExactly(sts: seq<State>, steps: seq<Step>, k: nat, s: Client)
    requires IsPossibleRun(sts, steps) && k < |sts| && s.isSurrogate
    ensures At(sts[k], s).incoming <==> LastBegan(sts, steps, k, s)
  {
    if k > 0 {
      IncomingExactly(sts, steps, k - 1, s);
      RunIsSound(sts, steps, k - 1);
      assert Possible(sts[k - 1], steps[k - 1]) && sts[k] == Apply(sts[k - 1], steps[k - 1]);
      IncomingStep(sts[k - 1], steps[k - 1], s);
    }
  }

  /** A message that is sent while no body is coming in, and while the poller is in a request, goes
      straight to the poller, as the whole body of its response; any other one is buffered. */
  lemma PollerGetsMessage(sts: seq<State>, steps: seq<Step>, k: nat, s: Client, m: Message)
    requires IsPossibleRun(sts, steps) && k < |steps| && steps[k] == SendStep(s, m, true)
    ensures var p := At(sts[k], s).peer;
            if !LastBegan(sts, steps, k, s) && p != null && At(sts[k], p).inRequest then
              && sts[k + 1].log == sts[k].log + [Sent(s, m), Response(p, S200, s, [m])]
              && At(sts[k + 1], s).wbuff == At(sts[k], s).wbuff
            else
              && sts[k + 1].log == sts[k].log + [Sent(s, m)]
              && At(sts[k + 1], s).wbuff == At(sts[k], s).wbuff + [m]
  {
    assert Possible(sts[k], steps[k]) && sts[k + 1] == Apply(sts[k], steps[k]);
    RunIsSound(sts, steps, k);
    IncomingExactly(sts, steps, k, s);
    SendDoes(sts[k], s, m, true);
  }
}
