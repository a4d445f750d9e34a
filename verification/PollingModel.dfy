/**
 The HTTP long-poll layer, on values.

 A surrogate is a client without a socket; sockets come and go and take turns being its
 poller.  Surrogate and socket point at each other through one field, `peer`, and each
 pointer owns a reference on its target.  The functions below are the steps of that layer,
 one for each routine of the source, on a snapshot of all clients.
 */
module PollingModel {

  /** One framed message, as appended to a buffer. */
  type Message = string

  datatype Status = S200 | S400 | S403 | S405 | S411 | S413 | S426 | S501

  /** Where the routing thread of a socket stands: between requests, past the headers and
      waiting for the body, inside the body on behalf of a surrogate, or gone to another
      protocol. */
  datatype Phase = Idle | Await | InBody(surrogate: Client) | Upgraded

  /** A close request makes a client `Closing`; once its close handler has run it is `Closed`. */
  datatype Life = Open | Closing | Closed

  /** What the headers of the current request said. */
  datatype Request = Request(keepAlive: bool, isPost: bool, iframe: bool)

  class Client {
    const isSurrogate: bool
    var peer: Client?
    var inRequest: bool
    var incoming: bool
    var life: Life
    var phase: Phase
    var request: Request
    var wbuff: seq<Message>
    var refs: nat

    constructor (isSurrogate: bool)
      ensures this.isSurrogate == isSurrogate && refs == 0 && AsView() == FreshView()
    {
      this.isSurrogate := isSurrogate;
      peer, inRequest, incoming, life, phase := null, false, false, Open, Idle;
      request, wbuff, refs := Request(false, false, false), [], 0;
    }

    ghost function AsView(): View
      reads this
    {
      View(peer, inRequest, incoming, life, phase, request, wbuff)
    }
  }

  /** Everything a client holds but its reference count. */
  datatype View = View(
    peer: Client?, inRequest: bool, incoming: bool, life: Life, phase: Phase,
    request: Request, wbuff: seq<Message>)

  ghost function FreshView(): View {
    View(null, false, false, Open, Idle, Request(false, false, false), [])
  }

  /** What an observer sees: a request begun on a socket, a message handed to a surrogate,
      and a response written to a socket.  `origin` is the surrogate whose messages the
      response carries. */
  datatype Event =
    | Begun(c: Client)
    | Sent(s: Client, m: Message)
    | Response(to: Client, status: Status, origin: Client?, body: seq<Message>)

  type Clients = map<Client, View>

  datatype State = State(cl: Clients, log: seq<Event>)

  ghost function Init(): State { State(map[], []) }

  /** What a client holds; a client that is not part of the state is as good as new. */
  ghost function At(st: State, c: Client): View { if c in st.cl then st.cl[c] else FreshView() }

  ghost function Put(st: State, c: Client, v: View): State { st.(cl := st.cl[c := v]) }

  ghost function SetPeer(st: State, c: Client, p: Client?): State { Put(st, c, At(st, c).(peer := p)) }

  ghost function SetPhase(st: State, c: Client, p: Phase): State { Put(st, c, At(st, c).(phase := p)) }

  function Shut(l: Life): Life { if l.Open? then Closing else l }

  ghost function Close(st: State, c: Client): State { Put(st, c, At(st, c).(life := Shut(At(st, c).life))) }

  ghost predicate Answers(st: State, c: Client?) { c != null && At(st, c).inRequest }

  // ----- responses -----

  /** A response ends the request of a socket and cuts both ends of its link; a socket that
      is not to be kept alive is closed. */
  ghost function Cut(st: State, c: Client): State {
    var v := At(st, c);
    var s := v.peer;
    var life := if v.inRequest && !v.request.keepAlive then Shut(v.life) else v.life;
    var st1 := Put(st, c, v.(peer := null, inRequest := false, life := life));
    if s != null && s != c && At(st, s).peer == c then Put(st1, s, At(st, s).(peer := null)) else st1
  }

  /** Only an open request gets the response. */
  ghost function SendResponse(st: State, c: Client?, status: Status, origin: Client?, body: seq<Message>): State {
    if c == null then st
    else Cut(st, c).(log := if At(st, c).inRequest then st.log + [Response(c, status, origin, body)] else st.log)
  }

  ghost function SendError(st: State, c: Client?, status: Status): State {
    SendResponse(st, c, status, null, [])
  }

  ghost function Replace(st: State, s: Client, new_: Client): State {
    var old_ := At(st, s).peer;
    if At(st, s).life.Open? && At(st, new_).life.Open? then SendError(SetPeer(st, s, new_), old_, S200)
    else SendError(SendError(SetPeer(st, s, null), new_, S403), old_, S403)
  }

  ghost function SurrSend(st: State, s: Client, new_: Client, msgs: seq<Message>): State {
    var poller := At(st, s).peer;
    var st1 := SendResponse(SetPeer(st, s, null), poller, S200, s, msgs);
    if Answers(st, poller) then Replace(st1, s, new_) else SendResponse(st1, new_, S200, s, msgs)
  }

  // ----- entry points -----

  /** What the header parser and the request line decide. */
  datatype Headers =
    | Malformed
    | BadLength
    | LengthRequired
    | Upgrade
    | UpgradeRefused(status: Status)
    | Http(post: bool, frame: bool, surrogate: Client?)

  ghost function Begin(st: State, c: Client, keepAlive: bool): State {
    var v := At(st, c);
    Put(st, c, v.(inRequest := true, request := v.request.(keepAlive := keepAlive)))
    .(log := st.log + [Begun(c)])
  }

  ghost function Link(st: State, c: Client, s: Client?): State {
    if s != null && At(st, s).life.Open? && At(st, c).life.Open? then SetPeer(st, c, s) else st
  }

  ghost function SetKind(st: State, c: Client, post: bool, frame: bool): State {
    var v := At(st, c);
    Put(st, c, v.(request := v.request.(isPost := post, iframe := frame), phase := Await))
  }

  ghost function FollowHeaders(st: State, c: Client, h: Headers): State {
    match h
    case Malformed | BadLength | LengthRequired => Close(st, c)
    case Upgrade => SetPhase(st, c, Upgraded)
    case UpgradeRefused(status) => SendError(SetPhase(st, c, Await), c, status)
    case Http(post, frame, s) => SetKind(Link(st, c, s), c, post, frame)
  }

  ghost function DoHeaders(st: State, c: Client, keepAlive: bool, h: Headers): State {
    FollowHeaders(Begin(SendError(st, c, S200), c, keepAlive), c, h)
  }

  ghost function BeginBody(st: State, c: Client, s: Client): State {
    var st1 := SetPhase(st, c, InBody(s));
    Put(st1, s, At(st1, s).(incoming := true))
  }

  ghost function DoBody(st: State, c: Client, public: bool): State {
    var v := At(st, c);
    var st0 := SetPhase(st, c, Idle);
    if !public then SendError(st0, c, S501)
    else if v.request.iframe then SendResponse(st0, c, S200, null, [])
    else if !v.request.isPost then SendError(st0, c, S405)
    else if v.peer == null then SendError(st0, c, S403)
    else BeginBody(st0, c, v.peer)
  }

  /** An event in the body is malformed: the surrogate is closed and the socket gets a 400. */
  ghost function FailBody(st: State, c: Client): State
    requires At(st, c).phase.InBody?
  {
    SendError(Close(SetPhase(st, c, Idle), At(st, c).phase.surrogate), c, S400)
  }

  ghost function Flush(st: State, s: Client): State {
    Put(st, s, At(st, s).(incoming := false, wbuff := []))
  }

  ghost function EndBody(st: State, c: Client): State
    requires At(st, c).phase.InBody?
  {
    var s := At(st, c).phase.surrogate;
    var msgs := At(st, s).wbuff;
    var st1 := Flush(SetPhase(st, c, Idle), s);
    if msgs == [] then Replace(st1, s, c) else SurrSend(st1, s, c, msgs)
  }

  /** `kept` is false when the library drops a write to a closing client. */
  ghost function Buffer(st: State, s: Client, m: Message, kept: bool): State {
    Put(st, s, At(st, s).(wbuff := if kept then At(st, s).wbuff + [m] else At(st, s).wbuff))
  }

  ghost function Record(st: State, s: Client, m: Message): State {
    st.(log := st.log + [Sent(s, m)])
  }

  ghost function HttpSend(st: State, s: Client, m: Message, kept: bool): State {
    var st0 := Record(st, s, m);
    if At(st0, s).incoming then Buffer(st0, s, m, kept) else
      var poller := At(st0, s).peer;
      var st1 := SetPeer(st0, s, null);
      var st2 := SendResponse(st1, poller, S200, s, [m]);
      if Answers(st0, poller) then st2 else Buffer(st2, s, m, kept)
  }

  /** A heartbeat that found its threshold passed. */
  ghost function Heartbeat(st: State, c: Client): State {
    if At(st, c).peer == null then Close(st, c)
    else if c.isSurrogate then st
    else SendError(st, c, S200)
  }

  datatype Reason = BadRequest | NoLength | OutOfMemory | Other

  ghost function Farewell(st: State, c: Client, reason: Reason): State {
    match reason
    case BadRequest => SendError(st, c, S400)
    case NoLength => SendError(st, c, S411)
    case OutOfMemory => SendError(st, c, S413)
    case Other => st
  }

  ghost function MarkClosed(st: State, c: Client): State {
    Put(st, c, At(st, c).(life := Closed))
  }

  ghost function SurrogateHandler(st: State, s: Client): State {
    MarkClosed(SendError(SetPeer(st, s, null), At(st, s).peer, S403), s)
  }

  ghost function SocketHandler(st: State, c: Client, reason: Reason): State {
    var p := At(st, c).peer;
    var st1 := Farewell(SetPeer(st, c, null), c, reason);
    MarkClosed(if p == null then st1 else Close(st1, p), c)
  }

  ghost function CloseHandler(st: State, c: Client, reason: Reason): State {
    if c.isSurrogate then SurrogateHandler(st, c) else SocketHandler(st, c, reason)
  }

  // ----- runs -----

  datatype Step =
    | New(c: Client)
    | HeadersStep(c: Client, keepAlive: bool, h: Headers)
    | BodyStep(c: Client, public: bool)
    | FailStep(c: Client)
    | EndStep(c: Client)
    | SendStep(c: Client, m: Message, kept: bool)
    | HeartbeatStep(c: Client)
    | CloseStep(c: Client)
    | HandlerStep(c: Client, reason: Reason)

  ghost predicate IsSocket(st: State, c: Client) { c in st.cl && !c.isSurrogate }
  ghost predicate IsSurrogate(st: State, c: Client) { c in st.cl && c.isSurrogate }

  /** When a step can happen at all. */
  ghost predicate Possible(st: State, step: Step) {
    match step
    case New(c) => c !in st.cl
    case HeadersStep(c, _, h) =>
      && IsSocket(st, c) && At(st, c).phase.Idle?
      && (h.Http? && h.surrogate != null ==> IsSurrogate(st, h.surrogate))
    case BodyStep(c, _) => IsSocket(st, c) && At(st, c).phase.Await?
    case FailStep(c) => IsSocket(st, c) && At(st, c).phase.InBody?
    case EndStep(c) => IsSocket(st, c) && At(st, c).phase.InBody?
    case SendStep(c, _, kept) => IsSurrogate(st, c) && (kept || !At(st, c).life.Open?)
    case HeartbeatStep(c) => c in st.cl && !At(st, c).phase.Upgraded?
    case CloseStep(c) => c in st.cl
    case HandlerStep(c, _) => c in st.cl && At(st, c).life.Closing? && !At(st, c).phase.Upgraded?
  }

  /** What is assumed of the surroundings: no heartbeat on a socket, and no answering close of
      it, during its own body. */
  ghost predicate Undisturbing(st: State, step: Step) {
    match step
    case HeartbeatStep(c) => !At(st, c).phase.InBody?
    case HandlerStep(c, reason) => At(st, c).phase.InBody? ==> reason == Other
    case _ => true
  }

  ghost predicate Enabled(st: State, step: Step) { Possible(st, step) && Undisturbing(st, step) }

  ghost function Apply(st: State, step: Step): State
    requires Possible(st, step)
  {
    match step
    case New(c) => Put(st, c, FreshView())
    case HeadersStep(c, k, h) => DoHeaders(st, c, k, h)
    case BodyStep(c, public) => DoBody(st, c, public)
    case FailStep(c) => FailBody(st, c)
    case EndStep(c) => EndBody(st, c)
    case SendStep(c, m, kept) => HttpSend(st, c, m, kept)
    case HeartbeatStep(c) => Heartbeat(st, c)
    case CloseStep(c) => Close(st, c)
    case HandlerStep(c, reason) => CloseHandler(st, c, reason)
  }
}
