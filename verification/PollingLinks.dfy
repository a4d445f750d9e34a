/**
 What every run of the long-poll layer keeps about its links.
 */
module PollingLinks {
  import opened PollingModel

  ghost predicate RolesOk(st: State, c: Client) {
    var v := At(st, c);
    && (c.isSurrogate ==> v.phase.Idle? && !v.inRequest)
    && (!c.isSurrogate ==> !v.incoming && v.wbuff == [])
    && (v.peer != null ==> v.peer in st.cl && v.peer.isSurrogate != c.isSurrogate)
    && (!c.isSurrogate && v.peer != null ==> v.inRequest)
    && (v.phase.InBody? ==> v.phase.surrogate in st.cl && v.phase.surrogate.isSurrogate)
    && (v.life.Closed? ==> v.peer == null)
    && (v.phase.Upgraded? ==> v.peer == null)
  }

  /** The poller of a surrogate points back and has an open request, unless both ends are
      going down. */
  ghost predicate PollerOk(st: State, s: Client) {
    var p := At(st, s).peer;
    s.isSurrogate && p != null ==>
      && !At(st, p).phase.InBody?
      && ((At(st, p).peer == s && At(st, p).inRequest && At(st, p).phase.Idle?)
          || (!At(st, s).life.Open? && At(st, p).life.Closed?))
  }

  /** A socket at rest that points at a surrogate is its poller. */
  ghost predicate RestOk(st: State, c: Client) {
    var v := At(st, c);
    !c.isSurrogate && v.phase.Idle? && v.peer != null ==> At(st, v.peer).peer == c
  }

  /** A socket inside its body with an open request still points at its surrogate, unless
      both are going down; one that has been answered points at nothing. */
  ghost predicate BodyOk(st: State, c: Client) {
    var v := At(st, c);
    v.phase.InBody? ==>
      if v.inRequest then v.peer == v.phase.surrogate || (v.life.Closed? && !At(st, v.phase.surrogate).life.Open?)
      else v.peer == null
  }

  /** Nobody has answered a socket inside its own body. */
  ghost predicate CalmAt(st: State, c: Client) {
    At(st, c).phase.InBody? ==> At(st, c).inRequest
  }

  ghost predicate Calm(st: State) {
    forall c {:trigger CalmAt(st, c)} :: c in st.cl ==> CalmAt(st, c)
  }

  /** Nothing is buffered behind a live poller, except while a body is coming in. */
  ghost predicate BufferOk(st: State, s: Client) {
    s.isSurrogate && At(st, s).peer != null && At(st, s).wbuff != [] ==> At(st, s).incoming
  }

  /** All that the link invariant says of one client. */
  ghost predicate ClientOk(st: State, c: Client) {
    RolesOk(st, c) && PollerOk(st, c) && BodyOk(st, c) && BufferOk(st, c)
  }

  /** The link invariant, where the sockets in `xs` may be at rest without being polled. */
  ghost predicate LinksBut(st: State, xs: set<Client>) {
    && (forall c {:trigger ClientOk(st, c)} :: c in st.cl ==> ClientOk(st, c))
    && (forall c {:trigger RestOk(st, c)} :: c in st.cl && c !in xs ==> RestOk(st, c))
  }

  /** The links are in order, even if sockets have been answered inside their bodies. */
  ghost predicate Linked(st: State) { LinksBut(st, {}) }

  ghost predicate LinksOk(st: State) { Linked(st) && Calm(st) }

  // ----- how the pieces keep it -----

  ghost function Opt(c: Client?): set<Client> { if c == null then {} else {c} }

  lemma StealKeeps(st: State, s: Client, xs: set<Client>)
    requires LinksBut(st, xs) && IsSurrogate(st, s)
    ensures LinksBut(SetPeer(st, s, null), xs + Opt(At(st, s).peer))
  {
    var r := SetPeer(st, s, null);
    assert ClientOk(st, s);
    forall c | c in st.cl
      ensures ClientOk(r, c) && (c !in xs + Opt(At(st, s).peer) ==> RestOk(r, c))
    {
      assert ClientOk(st, c) && (c !in xs ==> RestOk(st, c));
    }
  }

  /** What a response does to the clients: the socket lets go of its surrogate and its
      request, and the surrogate of the socket. */
  lemma ResponseEffect(st: State, c: Client, status: Status, origin: Client?, body: seq<Message>)
    requires c in st.cl && (At(st, c).peer != null ==> At(st, c).peer in st.cl)
    ensures var r := SendResponse(st, c, status, origin, body);
            var s := At(st, c).peer;
            && r.cl.Keys == st.cl.Keys
            && At(r, c) == At(st, c).(peer := null, inRequest := false, life := At(r, c).life)
            && (At(r, c).life == At(st, c).life || At(r, c).life == Shut(At(st, c).life))
            && (s != null && s != c ==> At(r, s) == if At(st, s).peer == c then At(st, s).(peer := null) else At(st, s))
            && (forall x {:trigger At(r, x)} :: x != c && x != s ==> At(r, x) == At(st, x))
  {
  }

  lemma ResponseKeeps(st: State, c: Client?, status: Status, origin: Client?, body: seq<Message>, xs: set<Client>)
    requires LinksBut(st, xs + Opt(c))
    requires c != null ==> IsSocket(st, c)
    ensures LinksBut(SendResponse(st, c, status, origin, body), xs)
  {
    if c != null {
      var r := SendResponse(st, c, status, origin, body);
      assert ClientOk(st, c);
      ResponseEffect(st, c, status, origin, body);
      forall x | x in st.cl
        ensures ClientOk(r, x) && (x !in xs ==> RestOk(r, x))
      {
        assert ClientOk(st, x) && (x !in xs + Opt(c) ==> RestOk(st, x));
      }
    }
  }

  /** A socket that does not answer keeps whatever the other sockets have. */
  lemma ResponseSpares(st: State, c: Client?, status: Status, origin: Client?, body: seq<Message>, x: Client)
    requires c != null && At(st, c).peer != null ==> At(st, c).peer.isSurrogate
    requires IsSocket(st, x) && x != c
    ensures At(SendResponse(st, c, status, origin, body), x) == At(st, x)
  {
  }

  lemma AttachKeeps(st: State, s: Client, c: Client, xs: set<Client>)
    requires LinksBut(st, xs) && IsSurrogate(st, s) && IsSocket(st, c) && At(st, s).wbuff == []
    requires At(st, c).peer == s && At(st, c).inRequest && At(st, c).phase.Idle? && At(st, s).life.Open?
    ensures LinksBut(SetPeer(st, s, c), (xs - {c}) + (Opt(At(st, s).peer) - {c}))
  {
    var r := SetPeer(st, s, c);
    assert ClientOk(st, s) && ClientOk(st, c);
    forall x | x in st.cl
      ensures ClientOk(r, x) && (x !in (xs - {c}) + (Opt(At(st, s).peer) - {c}) ==> RestOk(r, x))
    {
      assert ClientOk(st, x) && (x !in xs ==> RestOk(st, x));
    }
  }

  lemma ReplaceKeeps(st: State, s: Client, c: Client)
    requires LinksBut(st, {c}) && IsSurrogate(st, s) && IsSocket(st, c) && At(st, s).wbuff == []
    requires At(st, c).phase.Idle? && At(st, s).peer != c
    requires At(st, s).life.Open? && At(st, c).life.Open? ==> At(st, c).peer == s && At(st, c).inRequest
    ensures Linked(Replace(st, s, c))
  {
    var old_ := At(st, s).peer;
    assert ClientOk(st, s);
    assert old_ != null ==> ClientOk(st, old_);
    if At(st, s).life.Open? && At(st, c).life.Open? {
      AttachKeeps(st, s, c, {c});
      var st1 := SetPeer(st, s, c);
      assert {} + Opt(old_) == ({c} - {c}) + (Opt(old_) - {c});
      ResponseKeeps(st1, old_, S200, null, [], {});
    } else {
      StealKeeps(st, s, {c});
      var st1 := SetPeer(st, s, null);
      assert Opt(old_) + Opt(c) == {c} + Opt(old_);
      ResponseKeeps(st1, c, S403, null, [], Opt(old_));
      var st2 := SendError(st1, c, S403);
      assert {} + Opt(old_) == Opt(old_);
      if old_ != null {
        assert ClientOk(st1, c);
        ResponseSpares(st1, c, S403, null, [], old_);
      }
      ResponseKeeps(st2, old_, S403, null, [], {});
    }
  }

  lemma SurrSendKeeps(st: State, s: Client, c: Client, msgs: seq<Message>)
    requires LinksBut(st, {c}) && IsSurrogate(st, s) && IsSocket(st, c) && At(st, s).wbuff == []
    requires At(st, c).phase.Idle? && At(st, s).peer != c
    requires At(st, s).life.Open? && At(st, c).life.Open? && Answers(st, At(st, s).peer) ==> At(st, c).peer == s && At(st, c).inRequest
    ensures Linked(SurrSend(st, s, c, msgs))
  {
    var p := At(st, s).peer;
    var st0 := SetPeer(st, s, null);
    assert ClientOk(st, s);
    assert p != null ==> ClientOk(st, p);
    StealKeeps(st, s, {c});
    assert p != null ==> ClientOk(st0, p);
    ResponseKeeps(st0, p, S200, s, msgs, {c});
    ResponseSpares(st0, p, S200, s, msgs, c);
    var st1 := SendResponse(st0, p, S200, s, msgs);
    assert ClientOk(st1, c);
    if Answers(st, p) {
      ReplaceKeeps(st1, s, c);
    } else {
      assert {} + Opt(c) == {c};
      ResponseKeeps(st1, c, S200, s, msgs, {});
    }
  }

  // ----- how the entry points keep it -----

  lemma DetachedKeeps(st: State, c: Client)
    requires Linked(st) && IsSocket(st, c) && At(st, c).phase.InBody?
    ensures LinksBut(SetPhase(st, c, Idle), {c}) && IsSurrogate(st, At(st, c).phase.surrogate)
    ensures At(st, At(st, c).phase.surrogate).peer != c
  {
    var r := SetPhase(st, c, Idle);
    var s := At(st, c).phase.surrogate;
    assert ClientOk(st, c);
    assert ClientOk(st, s);
    forall x | x in st.cl
      ensures ClientOk(r, x) && (x !in {c} ==> RestOk(r, x))
    {
      assert ClientOk(st, x) && RestOk(st, x);
    }
  }

  /** When the links are in order after the end of a body: whoever becomes the poller still has
      its request. */
  ghost predicate LinksSurvive(st: State, c: Client)
    requires At(st, c).phase.InBody?
  {
    var s := At(st, c).phase.surrogate;
    At(st, s).life.Open? && At(st, c).life.Open? && (At(st, s).wbuff == [] || Answers(st, At(st, s).peer)) ==> Answers(st, c)
  }

  lemma FlushKeeps(st: State, c: Client)
    requires Linked(st) && IsSocket(st, c) && At(st, c).phase.InBody?
    ensures var s := At(st, c).phase.surrogate; LinksBut(Flush(SetPhase(st, c, Idle), s), {c})
  {
    var s := At(st, c).phase.surrogate;
    assert ClientOk(st, c);
    DetachedKeeps(st, c);
    var st0 := SetPhase(st, c, Idle);
    var st1 := Flush(st0, s);
    forall x | x in st.cl
      ensures ClientOk(st1, x) && (x !in {c} ==> RestOk(st1, x))
    {
      assert ClientOk(st0, x) && (x !in {c} ==> RestOk(st0, x));
    }
  }

  lemma EndBodyKeeps(st: State, c: Client)
    requires Linked(st) && IsSocket(st, c) && At(st, c).phase.InBody? && LinksSurvive(st, c)
    ensures Linked(EndBody(st, c))
  {
    var s := At(st, c).phase.surrogate;
    assert ClientOk(st, c);
    DetachedKeeps(st, c);
    FlushKeeps(st, c);
    var st1 := Flush(SetPhase(st, c, Idle), s);
    if At(st, s).wbuff == [] {
      ReplaceKeeps(st1, s, c);
    } else {
      SurrSendKeeps(st1, s, c, At(st, s).wbuff);
    }
  }

  /** A socket that no longer has its request becomes the poller. */
  lemma ReplaceBreaks(st: State, s: Client, c: Client)
    requires LinksBut(st, {c}) && IsSurrogate(st, s) && IsSocket(st, c) && !At(st, c).inRequest
    requires At(st, s).life.Open? && At(st, c).life.Open? && At(st, s).peer != c
    ensures !Linked(Replace(st, s, c))
  {
    var r := Replace(st, s, c);
    var old_ := At(st, s).peer;
    assert ClientOk(st, s);
    assert old_ != null ==> ClientOk(st, old_);
    assert At(r, s).peer == c && At(r, s).life.Open? && !At(r, c).inRequest;
    assert !PollerOk(r, s);
    assert !ClientOk(r, s);
  }

  lemma EndBodyBreaks(st: State, c: Client)
    requires Linked(st) && IsSocket(st, c) && At(st, c).phase.InBody? && !LinksSurvive(st, c)
    ensures !Linked(EndBody(st, c))
  {
    var s := At(st, c).phase.surrogate;
    assert ClientOk(st, c);
    assert ClientOk(st, s);
    DetachedKeeps(st, c);
    FlushKeeps(st, c);
    var st1 := Flush(SetPhase(st, c, Idle), s);
    if At(st, s).wbuff == [] {
      ReplaceBreaks(st1, s, c);
    } else {
      var p := At(st, s).peer;
      assert ClientOk(st, p);
      StealKeeps(st1, s, {c});
      var st2 := SetPeer(st1, s, null);
      assert ClientOk(st2, p);
      ResponseKeeps(st2, p, S200, s, At(st, s).wbuff, {c});
      ResponseSpares(st2, p, S200, s, At(st, s).wbuff, c);
      ReplaceBreaks(SendResponse(st2, p, S200, s, At(st, s).wbuff), s, c);
    }
  }

  lemma FailBodyKeeps(st: State, c: Client)
    requires Linked(st) && IsSocket(st, c) && At(st, c).phase.InBody?
    ensures Linked(FailBody(st, c))
  {
    var s := At(st, c).phase.surrogate;
    DetachedKeeps(st, c);
    var st0 := SetPhase(st, c, Idle);
    CloseKeeps(st0, s, {c});
    assert {} + Opt(c) == {c};
    ResponseKeeps(Close(st0, s), c, S400, null, [], {});
  }

  lemma CloseKeeps(st: State, c: Client, xs: set<Client>)
    requires LinksBut(st, xs) && c in st.cl
    ensures LinksBut(Close(st, c), xs)
  {
    var r := Close(st, c);
    forall x | x in st.cl
      ensures ClientOk(r, x) && (x !in xs ==> RestOk(r, x))
    {
      assert ClientOk(st, x) && (x !in xs ==> RestOk(st, x));
    }
  }

  /** Moving a socket that is linked to nobody. */
  lemma PhaseKeeps(st: State, c: Client, p: Phase)
    requires Linked(st) && IsSocket(st, c) && At(st, c).peer == null && !p.InBody?
    ensures Linked(SetPhase(st, c, p))
  {
    var r := SetPhase(st, c, p);
    assert ClientOk(st, c);
    forall x | x in st.cl
      ensures ClientOk(r, x) && RestOk(r, x)
    {
      assert ClientOk(st, x) && RestOk(st, x);
    }
  }

  lemma BeginKeeps(st: State, c: Client, keepAlive: bool)
    requires Linked(st) && IsSocket(st, c) && !At(st, c).phase.InBody?
    ensures Linked(Begin(st, c, keepAlive))
  {
    var r := Begin(st, c, keepAlive);
    forall x | x in st.cl
      ensures ClientOk(r, x) && RestOk(r, x)
    {
      assert ClientOk(st, x) && RestOk(st, x);
    }
  }

  lemma LinkKeeps(st: State, c: Client, s: Client?, post: bool, frame: bool)
    requires Linked(st) && IsSocket(st, c) && At(st, c).peer == null && At(st, c).inRequest
    requires s != null ==> IsSurrogate(st, s)
    ensures Linked(SetKind(Link(st, c, s), c, post, frame))
  {
    var r := SetKind(Link(st, c, s), c, post, frame);
    assert ClientOk(st, c);
    forall x | x in st.cl
      ensures ClientOk(r, x) && RestOk(r, x)
    {
      assert ClientOk(st, x) && RestOk(st, x);
    }
  }

  lemma HeadersKeep(st: State, c: Client, keepAlive: bool, h: Headers)
    requires Linked(st) && Possible(st, HeadersStep(c, keepAlive, h))
    ensures Linked(DoHeaders(st, c, keepAlive, h))
  {
    assert ClientOk(st, c);
    assert {} + Opt(c) == {c};
    ResponseKeeps(st, c, S200, null, [], {});
    ResponseEffect(st, c, S200, null, []);
    var st0 := SendError(st, c, S200);
    BeginKeeps(st0, c, keepAlive);
    FollowKeeps(Begin(st0, c, keepAlive), c, h);
  }

  lemma FollowKeeps(st: State, c: Client, h: Headers)
    requires Linked(st) && IsSocket(st, c) && At(st, c).peer == null && At(st, c).inRequest
    requires h.Http? && h.surrogate != null ==> IsSurrogate(st, h.surrogate)
    ensures Linked(FollowHeaders(st, c, h))
  {
    match h
    case Malformed | BadLength | LengthRequired => CloseKeeps(st, c, {});
    case Upgrade => PhaseKeeps(st, c, Upgraded);
    case UpgradeRefused(status) =>
      PhaseKeeps(st, c, Await);
      assert {} + Opt(c) == {c};
      ResponseKeeps(SetPhase(st, c, Await), c, status, null, [], {});
    case Http(post, frame, s) => LinkKeeps(st, c, s, post, frame);
  }

  lemma BodyKeeps(st: State, c: Client, public: bool)
    requires Linked(st) && Possible(st, BodyStep(c, public))
    ensures Linked(DoBody(st, c, public))
  {
    var v := At(st, c);
    var st0 := SetPhase(st, c, Idle);
    assert ClientOk(st, c);
    forall x | x in st.cl
      ensures ClientOk(st0, x) && (x !in {c} ==> RestOk(st0, x))
    {
      assert ClientOk(st, x) && RestOk(st, x);
    }
    assert {} + Opt(c) == {c};
    if !public {
      ResponseKeeps(st0, c, S501, null, [], {});
    } else if v.request.iframe {
      ResponseKeeps(st0, c, S200, null, [], {});
    } else if !v.request.isPost {
      ResponseKeeps(st0, c, S405, null, [], {});
    } else if v.peer == null {
      ResponseKeeps(st0, c, S403, null, [], {});
    } else {
      BeginBodyKeeps(st, c);
      assert BeginBody(st0, c, v.peer) == BeginBody(st, c, v.peer);
    }
  }

  lemma BeginBodyKeeps(st: State, c: Client)
    requires Linked(st) && IsSocket(st, c) && At(st, c).phase.Await? && At(st, c).peer != null
    ensures Linked(BeginBody(st, c, At(st, c).peer))
  {
    var r := BeginBody(st, c, At(st, c).peer);
    assert ClientOk(st, c);
    assert ClientOk(st, At(st, c).peer);
    forall x | x in st.cl
      ensures ClientOk(r, x) && RestOk(r, x)
    {
      assert ClientOk(st, x) && RestOk(st, x);
    }
  }

  lemma BufferKeeps(st: State, s: Client, m: Message, kept: bool)
    requires Linked(st) && IsSurrogate(st, s) && (At(st, s).peer == null || At(st, s).incoming)
    ensures Linked(Buffer(st, s, m, kept))
  {
    var r := Buffer(st, s, m, kept);
    forall x | x in st.cl
      ensures ClientOk(r, x) && RestOk(r, x)
    {
      assert ClientOk(st, x) && RestOk(st, x);
    }
  }

  lemma SendKeeps(st: State, s: Client, m: Message, kept: bool)
    requires Linked(st) && IsSurrogate(st, s)
    ensures Linked(HttpSend(st, s, m, kept))
  {
    var st0 := Record(st, s, m);
    forall x | x in st.cl
      ensures ClientOk(st0, x) && RestOk(st0, x)
    {
      assert ClientOk(st, x) && RestOk(st, x);
    }
    if At(st, s).incoming {
      BufferKeeps(st0, s, m, kept);
    } else {
      var p := At(st0, s).peer;
      assert ClientOk(st0, s);
      assert p != null ==> ClientOk(st0, p);
      StealKeeps(st0, s, {});
      var st1 := SetPeer(st0, s, null);
      assert p != null ==> ClientOk(st1, p);
      ResponseKeeps(st1, p, S200, s, [m], {});
      var st2 := SendResponse(st1, p, S200, s, [m]);
      if !Answers(st0, p) {
        BufferKeeps(st2, s, m, kept);
      }
    }
  }

  lemma HeartbeatKeeps(st: State, c: Client)
    requires Linked(st) && Possible(st, HeartbeatStep(c))
    ensures Linked(Heartbeat(st, c))
  {
    if At(st, c).peer == null {
      CloseKeeps(st, c, {});
    } else if !c.isSurrogate {
      assert {} + Opt(c) == {c};
      ResponseKeeps(st, c, S200, null, [], {});
    }
  }

  lemma SurrogateHandlerKeeps(st: State, s: Client, reason: Reason)
    requires Linked(st) && IsSurrogate(st, s) && At(st, s).life.Closing?
    ensures Linked(CloseHandler(st, s, reason))
  {
    var p := At(st, s).peer;
    assert ClientOk(st, s);
    assert p != null ==> ClientOk(st, p);
    StealKeeps(st, s, {});
    var st1 := SetPeer(st, s, null);
    assert p != null ==> ClientOk(st1, p);
    ResponseKeeps(st1, p, S403, null, [], {});
    var st2 := SendError(st1, p, S403);
    var r := MarkClosed(st2, s);
    forall x | x in st.cl
      ensures ClientOk(r, x) && RestOk(r, x)
    {
      assert ClientOk(st2, x) && RestOk(st2, x);
    }
  }

  /** The last words of a socket concern nobody else. */
  lemma FarewellEffect(st: State, c: Client, reason: Reason)
    requires c in st.cl && At(st, c).peer == null
    ensures var r := Farewell(st, c, reason);
            && r.cl == st.cl[c := At(r, c)]
            && At(r, c) == At(st, c).(inRequest := At(st, c).inRequest && reason.Other?, life := At(r, c).life)
            && (At(r, c).life.Open? ==> At(st, c).life.Open?)
  {
  }

  /** A socket that leaves and takes its surrogate down with it. */
  lemma LeavingKeeps(st: State, r: State, c: Client)
    requires Linked(st) && IsSocket(st, c) && r.cl.Keys == st.cl.Keys
    requires var q := At(r, c).inRequest;
             At(r, c) == At(st, c).(peer := null, inRequest := q, life := Closed)
             && (q ==> At(st, c).inRequest)
    requires var p := At(st, c).peer;
             p != null ==> At(r, p) == At(st, p).(life := Shut(At(st, p).life))
    requires forall x {:trigger At(r, x)} :: x != c && x != At(st, c).peer ==> At(r, x) == At(st, x)
    ensures Linked(r)
  {
    assert ClientOk(st, c);
    var p := At(st, c).peer;
    assert p != null ==> ClientOk(st, p);
    forall x | x in st.cl
      ensures ClientOk(r, x) && RestOk(r, x)
    {
      assert ClientOk(st, x) && RestOk(st, x);
    }
  }

  lemma SocketHandlerKeeps(st: State, c: Client, reason: Reason)
    requires Linked(st) && IsSocket(st, c) && Possible(st, HandlerStep(c, reason))
    ensures Linked(CloseHandler(st, c, reason))
    ensures var p := At(st, c).peer; p != null ==> !At(CloseHandler(st, c, reason), p).life.Open?
  {
    var p := At(st, c).peer;
    assert ClientOk(st, c);
    var st1 := SetPeer(st, c, null);
    FarewellEffect(st1, c, reason);
    var st2 := Farewell(st1, c, reason);
    var st3 := if p == null then st2 else Close(st2, p);
    assert p != null ==> At(st2, p) == At(st, p);
    LeavingKeeps(st, MarkClosed(st3, c), c);
  }

  /** Every step keeps the links in order, but for the end of a body whose socket has been
      answered meanwhile: that keeps them exactly if it makes no poller of the socket. */
  lemma LinkedKept(st: State, step: Step)
    requires Linked(st) && Possible(st, step)
    ensures Linked(Apply(st, step)) <==> (step.EndStep? ==> LinksSurvive(st, step.c))
  {
    match step
    case New(c) =>
      var r := Apply(st, step);
      forall x | x in r.cl
        ensures ClientOk(r, x) && RestOk(r, x)
      {
        assert x != c ==> ClientOk(st, x) && RestOk(st, x);
      }
    case HeadersStep(c, k, h) => HeadersKeep(st, c, k, h);
    case BodyStep(c, public) => BodyKeeps(st, c, public);
    case FailStep(c) => FailBodyKeeps(st, c);
    case EndStep(c) => if LinksSurvive(st, c) { EndBodyKeeps(st, c); } else { EndBodyBreaks(st, c); }
    case SendStep(c, m, kept) => SendKeeps(st, c, m, kept);
    case HeartbeatStep(c) => HeartbeatKeeps(st, c);
    case CloseStep(c) => CloseKeeps(st, c, {});
    case HandlerStep(c, reason) =>
      if c.isSurrogate {
        SurrogateHandlerKeeps(st, c, reason);
      } else {
        SocketHandlerKeeps(st, c, reason);
      }
  }

  // ----- who can answer a socket inside its body -----

  lemma ResponseCalm(st: State, c: Client?, status: Status, origin: Client?, body: seq<Message>, x: Client)
    requires CalmAt(st, x) && (c != null ==> !At(st, c).phase.InBody?)
    ensures CalmAt(SendResponse(st, c, status, origin, body), x)
  {
  }

  lemma ResponsePhase(st: State, c: Client?, status: Status, origin: Client?, body: seq<Message>, x: Client)
    ensures At(SendResponse(st, c, status, origin, body), x).phase == At(st, x).phase
  {
  }

  lemma ReplaceCalm(st: State, s: Client, c: Client, x: Client)
    requires CalmAt(st, x) && !At(st, c).phase.InBody?
    requires var p := At(st, s).peer; p != null ==> !At(st, p).phase.InBody?
    ensures CalmAt(Replace(st, s, c), x)
  {
    var old_ := At(st, s).peer;
    if At(st, s).life.Open? && At(st, c).life.Open? {
      ResponseCalm(SetPeer(st, s, c), old_, S200, null, [], x);
    } else {
      var st1 := SetPeer(st, s, null);
      ResponseCalm(st1, c, S403, null, [], x);
      if old_ != null {
        ResponsePhase(st1, c, S403, null, [], old_);
      }
      ResponseCalm(SendError(st1, c, S403), old_, S403, null, [], x);
    }
  }

  lemma SurrSendCalm(st: State, s: Client, c: Client, msgs: seq<Message>, x: Client)
    requires CalmAt(st, x) && !At(st, c).phase.InBody?
    requires var p := At(st, s).peer; p != null ==> !At(st, p).phase.InBody? && p != s
    ensures CalmAt(SurrSend(st, s, c, msgs), x)
  {
    var p := At(st, s).peer;
    var st1 := SetPeer(st, s, null);
    ResponseCalm(st1, p, S200, s, msgs, x);
    ResponsePhase(st1, p, S200, s, msgs, c);
    var st2 := SendResponse(st1, p, S200, s, msgs);
    if Answers(st, p) {
      assert At(st2, s).peer == null;
      ReplaceCalm(st2, s, c, x);
    } else {
      ResponseCalm(st2, c, S200, s, msgs, x);
    }
  }

  lemma EndBodyCalm(st: State, c: Client, x: Client)
    requires Linked(st) && IsSocket(st, c) && At(st, c).phase.InBody? && (x != c ==> CalmAt(st, x))
    ensures CalmAt(EndBody(st, c), x)
  {
    var s := At(st, c).phase.surrogate;
    assert ClientOk(st, c);
    assert ClientOk(st, s);
    var st1 := Flush(SetPhase(st, c, Idle), s);
    assert CalmAt(st1, x);
    if At(st, s).wbuff == [] {
      ReplaceCalm(st1, s, c, x);
    } else {
      SurrSendCalm(st1, s, c, At(st, s).wbuff, x);
    }
  }

  lemma BodyCalm(st: State, c: Client, public: bool, x: Client)
    requires Linked(st) && IsSocket(st, c) && CalmAt(st, x)
    ensures CalmAt(DoBody(st, c, public), x)
  {
    var st0 := SetPhase(st, c, Idle);
    assert ClientOk(st, c);
    assert CalmAt(st0, x);
    ResponseCalm(st0, c, S501, null, [], x);
    ResponseCalm(st0, c, S200, null, [], x);
    ResponseCalm(st0, c, S405, null, [], x);
    ResponseCalm(st0, c, S403, null, [], x);
  }

  lemma HeadersCalm(st: State, c: Client, keepAlive: bool, h: Headers, x: Client)
    requires CalmAt(st, x) && !At(st, c).phase.InBody?
    ensures CalmAt(DoHeaders(st, c, keepAlive, h), x)
  {
    ResponseCalm(st, c, S200, null, [], x);
    ResponsePhase(st, c, S200, null, [], c);
    var st1 := Begin(SendError(st, c, S200), c, keepAlive);
    assert CalmAt(st1, x);
    if h.UpgradeRefused? {
      ResponseCalm(SetPhase(st1, c, Await), c, h.status, null, [], x);
    }
  }

  lemma SendCalm(st: State, s: Client, m: Message, kept: bool, x: Client)
    requires Linked(st) && IsSurrogate(st, s) && CalmAt(st, x)
    ensures CalmAt(HttpSend(st, s, m, kept), x)
  {
    assert ClientOk(st, s);
    var st1 := SetPeer(Record(st, s, m), s, null);
    assert CalmAt(st1, x);
    ResponseCalm(st1, At(st, s).peer, S200, s, [m], x);
  }

  lemma HandlerCalm(st: State, c: Client, reason: Reason, x: Client)
    requires Linked(st) && Enabled(st, HandlerStep(c, reason)) && CalmAt(st, x)
    ensures CalmAt(CloseHandler(st, c, reason), x)
  {
    assert ClientOk(st, c);
    var p := At(st, c).peer;
    var st1 := SetPeer(st, c, null);
    assert CalmAt(st1, x);
    if c.isSurrogate {
      ResponseCalm(st1, p, S403, null, [], x);
    } else if !reason.Other? {
      ResponseCalm(st1, c, S400, null, [], x);
      ResponseCalm(st1, c, S411, null, [], x);
      ResponseCalm(st1, c, S413, null, [], x);
    }
  }

  lemma CalmKept(st: State, step: Step, x: Client)
    requires Linked(st) && Enabled(st, step) && CalmAt(st, x)
    ensures CalmAt(Apply(st, step), x)
  {
    match step
    case New(c) =>
    case HeadersStep(c, k, h) => HeadersCalm(st, c, k, h, x);
    case BodyStep(c, public) => BodyCalm(st, c, public, x);
    case FailStep(c) => ResponseCalm(Close(SetPhase(st, c, Idle), At(st, c).phase.surrogate), c, S400, null, [], x);
    case EndStep(c) => EndBodyCalm(st, c, x);
    case SendStep(c, m, kept) => SendCalm(st, c, m, kept, x);
    case HeartbeatStep(c) => ResponseCalm(st, c, S200, null, [], x);
    case CloseStep(c) =>
    case HandlerStep(c, reason) => HandlerCalm(st, c, reason, x);
  }

  /** After a body whose socket, and no other one, may have been answered meanwhile, everything is
      in order again exactly if it made no poller of a socket without a request. */
  lemma LinksRestored(st: State, c: Client)
    requires Linked(st) && IsSocket(st, c) && At(st, c).phase.InBody?
    requires forall x {:trigger CalmAt(st, x)} :: x in st.cl && x != c ==> CalmAt(st, x)
    ensures LinksOk(EndBody(st, c)) <==> LinksSurvive(st, c)
  {
    LinkedKept(st, EndStep(c));
    var r := EndBody(st, c);
    forall x | x in r.cl ensures CalmAt(r, x) {
      assert x in st.cl && x != c ==> CalmAt(st, x);
      assert x !in st.cl ==> CalmAt(st, x);
      EndBodyCalm(st, c, x);
    }
  }

  /** The link invariant is kept by every step, if nothing answers a socket inside its body. */
  lemma LinksKept(st: State, step: Step)
    requires LinksOk(st) && Enabled(st, step)
    ensures LinksOk(Apply(st, step))
  {
    LinkedKept(st, step);
    if step.EndStep? {
      assert CalmAt(st, step.c);
    }
    var r := Apply(st, step);
    forall x | x in r.cl ensures CalmAt(r, x) {
      assert x in st.cl ==> CalmAt(st, x);
      CalmKept(st, step, x);
    }
  }
}
