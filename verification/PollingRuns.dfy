/**
 What an observer of the long-poll layer can rely on, over all its runs.
 */
module PollingRuns {
  import opened PollingModel
  import opened PollingLinks
  import opened PollingRoles

  // ----- reading the log -----

  ghost function SentTo(log: seq<Event>, s: Client): seq<Message> {
    if log == [] then [] else
      var e := log[|log| - 1];
      SentTo(log[..|log| - 1], s) + if e.Sent? && e.s == s then [e.m] else []
  }

  /** The bodies of the responses that carried messages of `s`, end to end. */
  ghost function Delivered(log: seq<Event>, s: Client): seq<Message> {
    if log == [] then [] else
      var e := log[|log| - 1];
      Delivered(log[..|log| - 1], s) + if e.Response? && e.origin == s then e.body else []
  }

  /** Requests begun on `c` and not yet answered. */
  ghost function Unanswered(log: seq<Event>, c: Client): int {
    if log == [] then 0 else
      var e := log[|log| - 1];
      Unanswered(log[..|log| - 1], c)
      + (if e == Begun(c) then 1 else if e.Response? && e.to == c then -1 else 0)
  }

  /** Requests and responses of `c` take turns, starting with a request. */
  ghost predicate TakeTurns(log: seq<Event>, c: Client) {
    log != [] ==>
      var e := log[|log| - 1];
      var init := log[..|log| - 1];
      && TakeTurns(init, c)
      && (e == Begun(c) ==> Unanswered(init, c) == 0)
      && (e.Response? && e.to == c ==> Unanswered(init, c) == 1)
  }

  lemma Snoc(log: seq<Event>, e: Event)
    ensures (log + [e])[..|log + [e]| - 1] == log
  {
  }

  // ----- requests and responses -----

  /** The request flag of a socket tells whether a response is owed. */
  ghost predicate Balanced(st: State, c: Client) {
    TakeTurns(st.log, c) && Unanswered(st.log, c) == if At(st, c).inRequest then 1 else 0
  }

  lemma ResponseFlag(st: State, c: Client, status: Status, origin: Client?, body: seq<Message>, x: Client)
    ensures At(SendResponse(st, c, status, origin, body), x).inRequest == (x != c && At(st, x).inRequest)
  {
  }

  lemma AnswerBalances(log: seq<Event>, c: Client, status: Status, origin: Client?, body: seq<Message>, x: Client)
    requires TakeTurns(log, x) && (x == c ==> Unanswered(log, x) == 1)
    ensures var r := log + [Response(c, status, origin, body)];
            TakeTurns(r, x) && Unanswered(r, x) == if x == c then 0 else Unanswered(log, x)
  {
    Snoc(log, Response(c, status, origin, body));
  }

  lemma ResponseBalances(st: State, c: Client?, status: Status, origin: Client?, body: seq<Message>, x: Client)
    requires Balanced(st, x)
    ensures Balanced(SendResponse(st, c, status, origin, body), x)
  {
    if c != null {
      ResponseFlag(st, c, status, origin, body, x);
      if At(st, c).inRequest {
        AnswerBalances(st.log, c, status, origin, body, x);
      }
    }
  }

  lemma ReplaceBalances(st: State, s: Client, c: Client, x: Client)
    requires Balanced(st, x)
    ensures Balanced(Replace(st, s, c), x)
  {
    var old_ := At(st, s).peer;
    if At(st, s).life.Open? && At(st, c).life.Open? {
      ResponseBalances(SetPeer(st, s, c), old_, S200, null, [], x);
    } else {
      var st1 := SetPeer(st, s, null);
      ResponseBalances(st1, c, S403, null, [], x);
      ResponseBalances(SendError(st1, c, S403), old_, S403, null, [], x);
    }
  }

  lemma SurrSendBalances(st: State, s: Client, c: Client, msgs: seq<Message>, x: Client)
    requires Balanced(st, x)
    ensures Balanced(SurrSend(st, s, c, msgs), x)
  {
    var p := At(st, s).peer;
    var st0 := SetPeer(st, s, null);
    ResponseBalances(st0, p, S200, s, msgs, x);
    var st1 := SendResponse(st0, p, S200, s, msgs);
    ReplaceBalances(st1, s, c, x);
    ResponseBalances(st1, c, S200, s, msgs, x);
  }

  lemma SilentBalances(st: State, r: State, x: Client)
    requires Balanced(st, x) && r.log == st.log && At(r, x).inRequest == At(st, x).inRequest
    ensures Balanced(r, x)
  {
  }

  lemma BeginBalances(st: State, c: Client, keepAlive: bool, x: Client)
    requires Balanced(st, x) && !At(st, c).inRequest
    ensures Balanced(Begin(st, c, keepAlive), x)
  {
    Snoc(st.log, Begun(c));
  }

  lemma FollowBalances(st: State, c: Client, h: Headers, x: Client)
    requires Balanced(st, x)
    ensures Balanced(FollowHeaders(st, c, h), x)
  {
    match h
    case Malformed | BadLength | LengthRequired => SilentBalances(st, Close(st, c), x);
    case Upgrade => SilentBalances(st, SetPhase(st, c, Upgraded), x);
    case UpgradeRefused(status) =>
      SilentBalances(st, SetPhase(st, c, Await), x);
      ResponseBalances(SetPhase(st, c, Await), c, status, null, [], x);
    case Http(post, frame, s) => LinkBalances(st, c, s, post, frame, x);
  }

  lemma LinkBalances(st: State, c: Client, s: Client?, post: bool, frame: bool, x: Client)
    requires Balanced(st, x)
    ensures Balanced(SetKind(Link(st, c, s), c, post, frame), x)
  {
    var st1 := Link(st, c, s);
    SilentBalances(st, st1, x);
    SilentBalances(st1, SetKind(st1, c, post, frame), x);
  }

  lemma HeadersBalance(st: State, c: Client, keepAlive: bool, h: Headers, x: Client)
    requires Balanced(st, x) && c in st.cl && (At(st, c).peer != null ==> At(st, c).peer in st.cl)
    ensures Balanced(DoHeaders(st, c, keepAlive, h), x)
  {
    ResponseBalances(st, c, S200, null, [], x);
    var st0 := SendError(st, c, S200);
    ResponseEffect(st, c, S200, null, []);
    BeginBalances(st0, c, keepAlive, x);
    FollowBalances(Begin(st0, c, keepAlive), c, h, x);
  }

  lemma BodyBalances(st: State, c: Client, public: bool, x: Client)
    requires Balanced(st, x)
    ensures Balanced(DoBody(st, c, public), x)
  {
    var st0 := SetPhase(st, c, Idle);
    assert Balanced(st0, x);
    ResponseBalances(st0, c, S501, null, [], x);
    ResponseBalances(st0, c, S200, null, [], x);
    ResponseBalances(st0, c, S405, null, [], x);
    ResponseBalances(st0, c, S403, null, [], x);
  }

  lemma EndBodyBalances(st: State, c: Client, x: Client)
    requires Balanced(st, x) && At(st, c).phase.InBody?
    ensures Balanced(EndBody(st, c), x) && Balanced(FailBody(st, c), x)
  {
    var s := At(st, c).phase.surrogate;
    var st0 := SetPhase(st, c, Idle);
    assert Balanced(st0, x);
    ResponseBalances(Close(st0, s), c, S400, null, [], x);
    var st1 := Flush(st0, s);
    assert Balanced(st1, x);
    ReplaceBalances(st1, s, c, x);
    SurrSendBalances(st1, s, c, At(st, s).wbuff, x);
  }

  lemma SendBalances(st: State, s: Client, m: Message, kept: bool, x: Client)
    requires Balanced(st, x)
    ensures Balanced(HttpSend(st, s, m, kept), x)
  {
    Snoc(st.log, Sent(s, m));
    var st0 := Record(st, s, m);
    var st1 := SetPeer(st0, s, null);
    assert Balanced(st1, x);
    ResponseBalances(st1, At(st0, s).peer, S200, s, [m], x);
  }

  lemma SurrogateHandlerBalances(st: State, s: Client, x: Client)
    requires Balanced(st, x)
    ensures Balanced(SurrogateHandler(st, s), x)
  {
    var st1 := SetPeer(st, s, null);
    SilentBalances(st, st1, x);
    ResponseBalances(st1, At(st, s).peer, S403, null, [], x);
    SilentBalances(SendError(st1, At(st, s).peer, S403), SurrogateHandler(st, s), x);
  }

  lemma LeaveBalances(st: State, p: Client?, c: Client, x: Client)
    requires Balanced(st, x)
    ensures Balanced(MarkClosed(if p == null then st else Close(st, p), c), x)
  {
    SilentBalances(st, MarkClosed(if p == null then st else Close(st, p), c), x);
  }

  lemma SocketHandlerBalances(st: State, c: Client, reason: Reason, x: Client)
    requires Balanced(st, x)
    ensures Balanced(SocketHandler(st, c, reason), x)
  {
    var st1 := SetPeer(st, c, null);
    SilentBalances(st, st1, x);
    FarewellBalances(st1, c, reason, x);
    LeaveBalances(Farewell(st1, c, reason), At(st, c).peer, c, x);
  }

  lemma FarewellBalances(st: State, c: Client, reason: Reason, x: Client)
    requires Balanced(st, x)
    ensures Balanced(Farewell(st, c, reason), x)
  {
    match reason
    case BadRequest => ResponseBalances(st, c, S400, null, [], x);
    case NoLength => ResponseBalances(st, c, S411, null, [], x);
    case OutOfMemory => ResponseBalances(st, c, S413, null, [], x);
    case Other =>
  }

  lemma BalanceKept(st: State, step: Step, x: Client)
    requires Sound(st) && Possible(st, step) && Balanced(st, x)
    ensures Balanced(Apply(st, step), x)
  {
    match step
    case New(c) =>
    case HeadersStep(c, k, h) =>
      assert SoundAt(st, c);
      HeadersBalance(st, c, k, h, x);
    case BodyStep(c, public) => BodyBalances(st, c, public, x);
    case FailStep(c) => EndBodyBalances(st, c, x);
    case EndStep(c) => EndBodyBalances(st, c, x);
    case SendStep(c, m, kept) => SendBalances(st, c, m, kept, x);
    case HeartbeatStep(c) => ResponseBalances(st, c, S200, null, [], x);
    case CloseStep(c) =>
    case HandlerStep(c, reason) =>
      SurrogateHandlerBalances(st, c, x);
      SocketHandlerBalances(st, c, reason, x);
  }

  // ----- messages -----

  /** Delivered messages, then `pending`, are what was sent to `s`, in order. */
  ghost predicate Conserved(st: State, s: Client, pending: seq<Message>) {
    Delivered(st.log, s) + pending == SentTo(st.log, s)
  }

  lemma ResponseDelivers(st: State, c: Client?, status: Status, origin: Client?, body: seq<Message>, s: Client)
    requires c != null ==> IsSocket(st, c)
    requires s.isSurrogate
    ensures var r := SendResponse(st, c, status, origin, body);
            && At(r, s) == At(st, s).(peer := At(r, s).peer)
            && SentTo(r.log, s) == SentTo(st.log, s)
            && Delivered(r.log, s) == Delivered(st.log, s) + if origin == s && Answers(st, c) then body else []
  {
    if c != null {
      Snoc(st.log, Response(c, status, origin, body));
    }
  }

  /** A change that leaves what `s` is owed alone. */
  ghost predicate Aside(st: State, r: State, s: Client) {
    && At(r, s) == At(st, s).(peer := At(r, s).peer)
    && SentTo(r.log, s) == SentTo(st.log, s) && Delivered(r.log, s) == Delivered(st.log, s)
  }

  lemma ErrorAside(st: State, c: Client?, status: Status, s: Client)
    requires (c != null ==> IsSocket(st, c)) && s.isSurrogate
    ensures Aside(st, SendError(st, c, status), s)
  {
    ResponseDelivers(st, c, status, null, [], s);
  }

  lemma ReplaceDelivers(st: State, a: Client, c: Client, s: Client)
    requires IsSocket(st, c) && a in st.cl && (At(st, a).peer != null ==> IsSocket(st, At(st, a).peer))
    requires s.isSurrogate && a.isSurrogate
    ensures Aside(st, Replace(st, a, c), s)
  {
    var old_ := At(st, a).peer;
    if At(st, a).life.Open? && At(st, c).life.Open? {
      assert Aside(st, SetPeer(st, a, c), s);
      ErrorAside(SetPeer(st, a, c), old_, S200, s);
    } else {
      var st1 := SetPeer(st, a, null);
      assert Aside(st, st1, s);
      ErrorAside(st1, c, S403, s);
      ErrorAside(SendError(st1, c, S403), old_, S403, s);
    }
  }

  /** The messages of `a` go out on its poller. */
  lemma PollerDelivers(st: State, a: Client, c: Client, msgs: seq<Message>, s: Client)
    requires IsSocket(st, c) && a in st.cl && a.isSurrogate && s.isSurrogate
    requires var p := At(st, a).peer;
             Answers(st, p) && IsSocket(st, p) && (At(st, p).peer != null ==> At(st, p).peer.isSurrogate)
    ensures var r := SurrSend(st, a, c, msgs);
            && At(r, s) == At(st, s).(peer := At(r, s).peer) && SentTo(r.log, s) == SentTo(st.log, s)
            && Delivered(r.log, s) == Delivered(st.log, s) + if s == a then msgs else []
  {
    var p := At(st, a).peer;
    var st1 := SetPeer(st, a, null);
    ResponseDelivers(st1, p, S200, a, msgs, s);
    var st2 := SendResponse(st1, p, S200, a, msgs);
    assert At(st2, a).peer == null;
    ReplaceDelivers(st2, a, c, s);
  }

  /** They go out on the new poller, or nowhere. */
  lemma NewPollerDelivers(st: State, a: Client, c: Client, msgs: seq<Message>, s: Client)
    requires IsSocket(st, c) && a in st.cl && a.isSurrogate && s.isSurrogate && !Answers(st, At(st, a).peer)
    requires var p := At(st, a).peer;
             p != null ==> IsSocket(st, p) && (At(st, p).peer != null ==> At(st, p).peer.isSurrogate)
    ensures var r := SurrSend(st, a, c, msgs);
            && At(r, s) == At(st, s).(peer := At(r, s).peer) && SentTo(r.log, s) == SentTo(st.log, s)
            && Delivered(r.log, s) == Delivered(st.log, s) + if s == a && Answers(st, c) then msgs else []
  {
    var p := At(st, a).peer;
    var st1 := SetPeer(st, a, null);
    ResponseDelivers(st1, p, S200, a, msgs, s);
    if c != p { ResponseSpares(st1, p, S200, a, msgs, c); }
    ResponseDelivers(SendResponse(st1, p, S200, a, msgs), c, S200, a, msgs, s);
  }

  lemma BodyDetails(st: State, c: Client)
    requires Sound(st) && IsSocket(st, c) && At(st, c).phase.InBody?
    ensures var a := At(st, c).phase.surrogate;
            var st1 := Flush(SetPhase(st, c, Idle), a);
            var p := At(st1, a).peer;
            && IsSurrogate(st1, a) && IsSocket(st1, c) && p == At(st, a).peer
            && (p != null ==> IsSocket(st1, p) && (At(st1, p).peer != null ==> At(st1, p).peer.isSurrogate))
            && Answers(st1, c) == Answers(st, c) && Answers(st1, p) == Answers(st, p)
  {
    var a := At(st, c).phase.surrogate;
    assert SoundAt(st, c) && SoundAt(st, a);
    var p := At(st, a).peer;
    assert p != null ==> SoundAt(st, p);
  }

  lemma BodyDelivers(st: State, a: Client, c: Client, msgs: seq<Message>, s: Client)
    requires IsSocket(st, c) && a in st.cl && a.isSurrogate && s.isSurrogate
    requires var p := At(st, a).peer;
             p != null ==> IsSocket(st, p) && (At(st, p).peer != null ==> At(st, p).peer.isSurrogate)
    ensures var r := if msgs == [] then Replace(st, a, c) else SurrSend(st, a, c, msgs);
            && At(r, s) == At(st, s).(peer := At(r, s).peer) && SentTo(r.log, s) == SentTo(st.log, s)
            && Delivered(r.log, s)
                 == Delivered(st.log, s) + if s == a && (Answers(st, At(st, a).peer) || Answers(st, c)) then msgs else []
  {
    if msgs == [] {
      ReplaceDelivers(st, a, c, s);
    } else if Answers(st, At(st, a).peer) {
      PollerDelivers(st, a, c, msgs, s);
    } else {
      NewPollerDelivers(st, a, c, msgs, s);
    }
  }

  /** When the messages of a surrogate survive the end of a body: there are none, or somebody is
      left to take them. */
  ghost predicate MessagesSurvive(st: State, c: Client)
    requires At(st, c).phase.InBody?
  {
    var s := At(st, c).phase.surrogate;
    At(st, s).wbuff == [] || Answers(st, At(st, s).peer) || Answers(st, c)
  }

  lemma EndBodyDelivers(st: State, c: Client, s: Client)
    requires Sound(st) && IsSocket(st, c) && At(st, c).phase.InBody? && s.isSurrogate
    ensures var a := At(st, c).phase.surrogate;
            var r := EndBody(st, c);
            && At(r, s).life == At(st, s).life && SentTo(r.log, s) == SentTo(st.log, s)
            && At(r, s).wbuff == (if s == a then [] else At(st, s).wbuff)
            && Delivered(r.log, s) == Delivered(st.log, s) + if s == a && MessagesSurvive(st, c) then At(st, a).wbuff else []
  {
    var a := At(st, c).phase.surrogate;
    BodyDetails(st, c);
    BodyDelivers(Flush(SetPhase(st, c, Idle), a), a, c, At(st, a).wbuff, s);
  }

  /** Nothing happened that concerns the messages of `s`. */
  ghost predicate Quiet(st: State, r: State, s: Client) {
    && (At(r, s).life.Open? ==> At(st, s).life.Open?)
    && At(r, s).wbuff == At(st, s).wbuff
    && SentTo(r.log, s) == SentTo(st.log, s) && Delivered(r.log, s) == Delivered(st.log, s)
  }

  lemma ErrorQuiet(st: State, c: Client?, status: Status, s: Client)
    requires (c != null ==> IsSocket(st, c)) && s.isSurrogate
    ensures Quiet(st, SendError(st, c, status), s)
  {
    ResponseDelivers(st, c, status, null, [], s);
  }

  lemma FollowQuiet(st: State, c: Client, h: Headers, s: Client)
    requires IsSocket(st, c) && s.isSurrogate
    ensures Quiet(st, FollowHeaders(st, c, h), s)
  {
    match h
    case Malformed | BadLength | LengthRequired =>
    case Upgrade =>
    case UpgradeRefused(status) => ErrorQuiet(SetPhase(st, c, Await), c, status, s);
    case Http(post, frame, p) =>
  }

  lemma HeadersQuiet(st: State, c: Client, keepAlive: bool, h: Headers, s: Client)
    requires IsSocket(st, c) && s.isSurrogate
    ensures Quiet(st, DoHeaders(st, c, keepAlive, h), s)
  {
    ErrorQuiet(st, c, S200, s);
    var st0 := SendError(st, c, S200);
    BeginQuiet(st0, c, keepAlive, s);
    FollowQuiet(Begin(st0, c, keepAlive), c, h, s);
  }

  lemma BeginQuiet(st: State, c: Client, keepAlive: bool, s: Client)
    requires IsSocket(st, c) && s.isSurrogate
    ensures Quiet(st, Begin(st, c, keepAlive), s)
  {
    Snoc(st.log, Begun(c));
  }

  lemma BodyQuiet(st: State, c: Client, public: bool, s: Client)
    requires IsSocket(st, c) && s.isSurrogate
    ensures Quiet(st, DoBody(st, c, public), s)
  {
    var st0 := SetPhase(st, c, Idle);
    assert Quiet(st, st0, s);
    ErrorQuiet(st0, c, S501, s);
    ErrorQuiet(st0, c, S200, s);
    ErrorQuiet(st0, c, S405, s);
    ErrorQuiet(st0, c, S403, s);
  }

  lemma FailBodyQuiet(st: State, c: Client, s: Client)
    requires IsSocket(st, c) && At(st, c).phase.InBody? && s.isSurrogate
    ensures Quiet(st, FailBody(st, c), s)
  {
    var st0 := Close(SetPhase(st, c, Idle), At(st, c).phase.surrogate);
    assert Quiet(st, st0, s);
    ErrorQuiet(st0, c, S400, s);
  }

  lemma SurrogateHandlerQuiet(st: State, a: Client, s: Client)
    requires Sound(st) && IsSurrogate(st, a) && s.isSurrogate
    ensures Quiet(st, SurrogateHandler(st, a), s)
  {
    assert SoundAt(st, a);
    var st1 := SetPeer(st, a, null);
    assert Quiet(st, st1, s);
    ErrorQuiet(st1, At(st, a).peer, S403, s);
    var st2 := SendError(st1, At(st, a).peer, S403);
    assert Quiet(st2, MarkClosed(st2, a), s);
  }

  lemma FarewellQuiet(st: State, c: Client, reason: Reason, s: Client)
    requires IsSocket(st, c) && s.isSurrogate
    ensures Quiet(st, Farewell(st, c, reason), s)
  {
    match reason
    case BadRequest => ErrorQuiet(st, c, S400, s);
    case NoLength => ErrorQuiet(st, c, S411, s);
    case OutOfMemory => ErrorQuiet(st, c, S413, s);
    case Other =>
  }

  lemma QuietTrans(a: State, b: State, c: State, s: Client)
    requires Quiet(a, b, s) && Quiet(b, c, s)
    ensures Quiet(a, c, s)
  {
  }

  lemma LeaveQuiet(st: State, p: Client?, c: Client, s: Client)
    requires c != s
    ensures Quiet(st, MarkClosed(if p == null then st else Close(st, p), c), s)
  {
  }

  lemma SocketHandlerQuiet(st: State, c: Client, reason: Reason, s: Client)
    requires IsSocket(st, c) && s.isSurrogate
    ensures Quiet(st, SocketHandler(st, c, reason), s)
  {
    var st1 := SetPeer(st, c, null);
    assert Quiet(st, st1, s);
    FarewellQuiet(st1, c, reason, s);
    var st2 := Farewell(st1, c, reason);
    QuietTrans(st, st1, st2, s);
    LeaveQuiet(st2, At(st, c).peer, c, s);
    QuietTrans(st, st2, SocketHandler(st, c, reason), s);
  }

  lemma SnocEqual(a: seq<Message>, b: seq<Message>, m: Message)
    ensures a + [m] == b + [m] <==> a == b
  {
    assert (a + [m])[..|a|] == a && (b + [m])[..|b|] == b;
  }

  /** A message goes to the poller or to the end of the buffer. */
  lemma SendDelivers(st: State, a: Client, m: Message)
    requires Sound(st) && IsSurrogate(st, a)
    ensures var r := HttpSend(st, a, m, true);
            && SentTo(r.log, a) == SentTo(st.log, a) + [m]
            && Delivered(r.log, a) + At(r, a).wbuff == (Delivered(st.log, a) + At(st, a).wbuff) + [m]
  {
    var st0 := Record(st, a, m);
    Snoc(st.log, Sent(a, m));
    assert SoundAt(st, a);
    if !At(st, a).incoming {
      var p := At(st, a).peer;
      ResponseDelivers(SetPeer(st0, a, null), p, S200, a, [m], a);
    }
  }

  lemma SendQuiet(st: State, a: Client, m: Message, kept: bool, s: Client)
    requires Sound(st) && IsSurrogate(st, a) && s.isSurrogate
    ensures At(HttpSend(st, a, m, kept), s).life == At(st, s).life
    ensures s != a ==> Quiet(st, HttpSend(st, a, m, kept), s)
  {
    var st0 := Record(st, a, m);
    Snoc(st.log, Sent(a, m));
    assert s != a ==> Quiet(st, st0, s);
    assert SoundAt(st, a);
    if !At(st, a).incoming {
      var p := At(st, a).peer;
      var st1 := SetPeer(st0, a, null);
      ResponseDelivers(st1, p, S200, a, [m], s);
      var st2 := SendResponse(st1, p, S200, a, [m]);
      assert s != a ==> Quiet(st0, st2, s);
      assert s != a ==> Quiet(st2, Buffer(st2, a, m, kept), s);
    }
  }

  /** All that was sent to `s` has been delivered or is buffered. */
  ghost predicate Kept(st: State, s: Client) { Conserved(st, s, At(st, s).wbuff) }

  /** No more than what was sent has been delivered or is buffered. */
  ghost predicate Within(st: State, s: Client) {
    |Delivered(st.log, s)| + |At(st, s).wbuff| <= |SentTo(st.log, s)|
  }

  /** A body of `s` ends and nobody is left to take its messages. */
  ghost predicate Loses(st: State, step: Step, s: Client) {
    step.EndStep? && At(st, step.c).phase.InBody? && At(st, step.c).phase.surrogate == s && !MessagesSurvive(st, step.c)
  }

  lemma Flushed(done: seq<Message>, left: seq<Message>, sent: seq<Message>, survive: bool)
    requires |done| + |left| <= |sent| && (left == [] ==> survive)
    ensures var d := done + if survive then left else [];
            |d| <= |sent| && (d == sent <==> done + left == sent && survive)
  {
    if !survive {
      assert |done| < |sent| && done + [] == done;
    }
  }

  lemma EndBodyConserves(st: State, c: Client, s: Client)
    requires Sound(st) && IsSocket(st, c) && At(st, c).phase.InBody? && s.isSurrogate && Within(st, s)
    ensures Within(EndBody(st, c), s)
    ensures Kept(EndBody(st, c), s) <==> Kept(st, s) && !Loses(st, EndStep(c), s)
  {
    EndBodyDelivers(st, c, s);
    if s == At(st, c).phase.surrogate {
      Flushed(Delivered(st.log, s), At(st, s).wbuff, SentTo(st.log, s), MessagesSurvive(st, c));
    }
    var d := Delivered(EndBody(st, c).log, s);
    assert d + [] == d && Delivered(st.log, s) + [] == Delivered(st.log, s);
  }

  lemma SendConserves(st: State, a: Client, m: Message)
    requires Sound(st) && IsSurrogate(st, a) && Within(st, a)
    ensures var r := HttpSend(st, a, m, true); Within(r, a) && (Kept(r, a) <==> Kept(st, a))
  {
    SendDelivers(st, a, m);
    SnocEqual(Delivered(st.log, a) + At(st, a).wbuff, SentTo(st.log, a), m);
    var r := HttpSend(st, a, m, true);
    assert |Delivered(r.log, a) + At(r, a).wbuff| == |(Delivered(st.log, a) + At(st, a).wbuff) + [m]|;
  }

  /** Whatever happens inside bodies: a step loses messages of an open surrogate exactly if it is
      the end of a body that nobody is left to answer, and what is lost stays lost. */
  lemma ConservationKept(st: State, step: Step, s: Client)
    requires Sound(st) && Possible(st, step) && s.isSurrogate && (At(st, s).life.Open? ==> Within(st, s))
    ensures At(Apply(st, step), s).life.Open? ==>
              && At(st, s).life.Open? && Within(Apply(st, step), s)
              && (Kept(Apply(st, step), s) <==> Kept(st, s) && !Loses(st, step, s))
  {
    match step
    case New(c) =>
    case HeadersStep(c, k, h) => HeadersQuiet(st, c, k, h, s);
    case BodyStep(c, public) => BodyQuiet(st, c, public, s);
    case FailStep(c) => FailBodyQuiet(st, c, s);
    case EndStep(c) =>
      EndBodyDelivers(st, c, s);
      if At(st, s).life.Open? { EndBodyConserves(st, c, s); }
    case SendStep(a, m, kept) =>
      SendQuiet(st, a, m, kept, s);
      if a == s && At(st, s).life.Open? { SendConserves(st, a, m); }
    case HeartbeatStep(c) =>
      if !c.isSurrogate { ErrorQuiet(st, c, S200, s); }
    case CloseStep(c) =>
    case HandlerStep(c, reason) =>
      if c.isSurrogate { SurrogateHandlerQuiet(st, c, s); } else { SocketHandlerQuiet(st, c, reason, s); }
  }

  // ----- all runs -----

  /** The runs that the source allows. */
  ghost predicate IsPossibleRun(sts: seq<State>, steps: seq<Step>) {
    && |sts| == |steps| + 1 && sts[0] == Init()
    && forall i {:trigger steps[i]} :: 0 <= i < |steps| ==> Possible(sts[i], steps[i]) && sts[i + 1] == Apply(sts[i], steps[i])
  }

  /** The runs in which nothing answers a socket inside its own body. */
  ghost predicate IsRun(sts: seq<State>, steps: seq<Step>) {
    && IsPossibleRun(sts, steps)
    && forall i {:trigger steps[i]} :: 0 <= i < |steps| ==> Undisturbing(sts[i], steps[i])
  }

  lemma {:induction false} RunIsSound(sts: seq<State>, steps: seq<Step>, k: nat)
    requires IsPossibleRun(sts, steps) && k < |sts|
    ensures Sound(sts[k])
  {
    if k > 0 {
      RunIsSound(sts, steps, k - 1);
      assert Possible(sts[k - 1], steps[k - 1]);
      SoundKept(sts[k - 1], steps[k - 1]);
    }
  }

  lemma {:induction false} RunKeepsLinks(sts: seq<State>, steps: seq<Step>, k: nat)
    requires IsRun(sts, steps) && k < |sts|
    ensures LinksOk(sts[k])
  {
    if k > 0 {
      RunKeepsLinks(sts, steps, k - 1);
      assert Enabled(sts[k - 1], steps[k - 1]);
      LinksKept(sts[k - 1], steps[k - 1]);
    }
  }

  lemma {:induction false} RunWithin(sts: seq<State>, steps: seq<Step>, k: nat, s: Client)
    requires IsPossibleRun(sts, steps) && k < |sts| && s.isSurrogate && At(sts[k], s).life.Open?
    ensures Within(sts[k], s)
    ensures k > 0 ==> At(sts[k - 1], s).life.Open? && (Kept(sts[k], s) <==> Kept(sts[k - 1], s) && !Loses(sts[k - 1], steps[k - 1], s))
  {
    if k > 0 {
      var i := k - 1;
      assert Possible(sts[i], steps[i]) && sts[i + 1] == Apply(sts[i], steps[i]);
      RunIsSound(sts, steps, i);
      if At(sts[i], s).life.Open? { RunWithin(sts, steps, i, s); }
      ConservationKept(sts[i], steps[i], s);
    }
  }

  lemma {:induction false} WasOpen(sts: seq<State>, steps: seq<Step>, i: nat, k: nat, s: Client)
    requires IsPossibleRun(sts, steps) && i <= k < |sts| && s.isSurrogate && At(sts[k], s).life.Open?
    ensures At(sts[i], s).life.Open?
    decreases k
  {
    if i < k {
      RunWithin(sts, steps, k, s);
      WasOpen(sts, steps, i, k - 1, s);
    }
  }

  /** What is lost once is lost for good. */
  lemma {:induction false} ForGood(good: nat -> bool, stays: nat -> bool, k: nat)
    requires good(0) && forall i: nat {:trigger stays(i)} :: i < k ==> (good(i + 1) <==> good(i) && stays(i))
    ensures good(k) <==> forall j | 0 <= j < k :: stays(j)
  {
    if k > 0 {
      ForGood(good, stays, k - 1);
      assert stays(k - 1) || !stays(k - 1);
    }
  }

  /** While a surrogate is open, the bodies of the responses that carried its messages, and
      then its buffer, are the messages sent to it, exactly if no body of it has ended with
      messages that nobody was left to take. */
  lemma LostExactlyIf(sts: seq<State>, steps: seq<Step>, k: nat, s: Client)
    requires IsPossibleRun(sts, steps) && k < |sts| && s.isSurrogate && At(sts[k], s).life.Open?
    ensures Delivered(sts[k].log, s) + At(sts[k], s).wbuff == SentTo(sts[k].log, s)
       <==> forall j | 0 <= j < k :: !Loses(sts[j], steps[j], s)
  {
    var good := (i: nat) => i < |sts| && Kept(sts[i], s);
    var stays := (i: nat) => i < |steps| && !Loses(sts[i], steps[i], s);
    forall i: nat | i < k ensures good(i + 1) <==> good(i) && stays(i) {
      WasOpen(sts, steps, i + 1, k, s);
      RunWithin(sts, steps, i + 1, s);
    }
    assert good(0);
    ForGood(good, stays, k);
    assert forall j: nat | j < k :: stays(j) <==> !Loses(sts[j], steps[j], s);
  }

  /** If nothing answers a socket inside its own body, no message is lost. */
  lemma NoMessageLost(sts: seq<State>, steps: seq<Step>, k: nat, s: Client)
    requires IsRun(sts, steps) && k < |sts| && s.isSurrogate
    ensures At(sts[k], s).life.Open? ==> Delivered(sts[k].log, s) + At(sts[k], s).wbuff == SentTo(sts[k].log, s)
  {
    if At(sts[k], s).life.Open? {
      forall j | 0 <= j < k ensures !Loses(sts[j], steps[j], s) {
        RunKeepsLinks(sts, steps, j);
        assert Enabled(sts[j], steps[j]);
        if steps[j].EndStep? { assert CalmAt(sts[j], steps[j].c); }
      }
      LostExactlyIf(sts, steps, k, s);
    }
  }

  /** On every socket requests and responses take turns, and exactly one response is owed
      while a request is open, whatever happens inside bodies. */
  lemma {:induction false} OneResponseEach(sts: seq<State>, steps: seq<Step>, k: nat, c: Client)
    requires IsPossibleRun(sts, steps) && k < |sts|
    ensures TakeTurns(sts[k].log, c)
    ensures Unanswered(sts[k].log, c) == if At(sts[k], c).inRequest then 1 else 0
  {
    if k > 0 {
      OneResponseEach(sts, steps, k - 1, c);
      RunIsSound(sts, steps, k - 1);
      assert Possible(sts[k - 1], steps[k - 1]);
      BalanceKept(sts[k - 1], steps[k - 1], c);
    }
  }

  /** What is made or broken one step at a time. */
  lemma {:induction false} Chain(good: nat -> bool, stays: nat -> bool, k: nat)
    requires good(0) && forall i: nat {:trigger good(i)} :: i < k && good(i) ==> (good(i + 1) <==> stays(i))
    ensures (forall j | 0 <= j <= k :: good(j)) <==> (forall j | 0 <= j < k :: stays(j))
  {
    if k > 0 {
      Chain(good, stays, k - 1);
      assert good(k - 1) ==> (good(k - 1 + 1) <==> stays(k - 1));
    }
  }

  ghost predicate LinksStay(st: State, step: Step) {
    step.EndStep? && At(st, step.c).phase.InBody? ==> LinksSurvive(st, step.c)
  }

  /** The links have been in order all along exactly if no body ended by making a poller of a
      socket that had lost its request. */
  lemma LinkedExactlyIf(sts: seq<State>, steps: seq<Step>, k: nat)
    requires IsPossibleRun(sts, steps) && k < |sts|
    ensures (forall j | 0 <= j <= k :: Linked(sts[j])) <==> (forall j | 0 <= j < k :: LinksStay(sts[j], steps[j]))
  {
    var good := (i: nat) => i < |sts| && Linked(sts[i]);
    var stays := (i: nat) => i < |steps| && LinksStay(sts[i], steps[i]);
    forall i: nat | i < k && good(i) ensures good(i + 1) <==> stays(i) {
      assert Possible(sts[i], steps[i]) && sts[i + 1] == Apply(sts[i], steps[i]);
      LinkedKept(sts[i], steps[i]);
    }
    assert good(0);
    Chain(good, stays, k);
    assert forall j: nat | j <= k :: good(j) <==> Linked(sts[j]);
    assert forall j: nat | j < k :: stays(j) <==> LinksStay(sts[j], steps[j]);
  }

  /** A body that ends after its socket was answered, with both ends open, always does harm: it
      loses messages, or it makes a poller of a socket without a request, and never both. */
  lemma OneOrTheOther(st: State, c: Client)
    requires Linked(st) && IsSocket(st, c) && At(st, c).phase.InBody? && !Answers(st, c)
    requires var s := At(st, c).phase.surrogate; At(st, s).life.Open? && At(st, c).life.Open? && Kept(st, s)
    ensures var s := At(st, c).phase.surrogate; Kept(EndBody(st, c), s) <==> !Linked(EndBody(st, c))
  {
    var s := At(st, c).phase.surrogate;
    LinkedIsSound(st);
    assert SoundAt(st, c);
    assert |Delivered(st.log, s) + At(st, s).wbuff| == |SentTo(st.log, s)|;
    EndBodyConserves(st, c, s);
    LinkedKept(st, EndStep(c));
  }

  /** The poller of an open surrogate points back, has an open request, and polls for no
      other surrogate; a client whose close handler ran is linked to nothing. */
  lemma PollersAreExclusive(sts: seq<State>, steps: seq<Step>, k: nat, s: Client, t: Client)
    requires IsRun(sts, steps) && k < |sts| && IsSurrogate(sts[k], s) && IsSurrogate(sts[k], t)
    ensures var st := sts[k];
            var p := At(st, s).peer;
            && (At(st, s).life.Open? && p != null ==>
                  && IsSocket(st, p) && At(st, p).peer == s && At(st, p).inRequest
                  && (At(st, t).peer == p ==> t == s))
            && (At(st, s).life.Closed? ==> p == null)
  {
    RunKeepsLinks(sts, steps, k);
    assert ClientOk(sts[k], s);
    assert ClientOk(sts[k], t);
    var p := At(sts[k], s).peer;
    if p != null {
      assert ClientOk(sts[k], p);
    }
  }

  /** When a body ends, the old poller is another socket, and whoever is left to take the
      flushed messages has an open request: the assertion on the new poller holds. */
  lemma NewPollerAnswers(st: State, c: Client)
    requires LinksOk(st) && IsSocket(st, c) && At(st, c).phase.InBody?
    ensures var s := At(st, c).phase.surrogate;
            var p := At(st, s).peer;
            var st1 := SetPeer(Flush(SetPhase(st, c, Idle), s), s, null);
            && IsSurrogate(st, s) && p != c
            && Answers(SendResponse(st1, p, S200, s, At(st, s).wbuff), c)
  {
    var s := At(st, c).phase.surrogate;
    var st0 := Flush(SetPhase(st, c, Idle), s);
    assert ClientOk(st, c) && CalmAt(st, c);
    DetachedKeeps(st, c);
    LinkedIsSound(st);
    BodyDetails(st, c);
    ResponseSpares(SetPeer(st0, s, null), At(st, s).peer, S200, s, At(st, s).wbuff, c);
  }
}
