/**
 The long-poll layer as the source has it: clients are objects whose fields are updated in
 place, and every pointer between them holds a counted reference.  Each method is tied to
 the step of `PollingModel` it performs, and keeps all references accounted for.
 */
module HttpPolling {
  import opened PollingModel
  import opened PollingLinks
  import opened PollingRoles
  import opened PollingRuns

  // ----- counting references -----

  ghost function PointersTo(st: State, c: Client): set<Client> {
    set x | x in st.cl && st.cl[x].peer == c
  }

  ghost function Bag(c: Client?): multiset<Client> { if c == null then multiset{} else multiset{c} }

  lemma PointerMoves(st: State, x: Client, p: Client?, c: Client)
    requires x in st.cl
    ensures |PointersTo(SetPeer(st, x, p), c)| + Bag(st.cl[x].peer)[c] == |PointersTo(st, c)| + Bag(p)[c]
  {
    var before := PointersTo(st, c);
    var after := PointersTo(SetPeer(st, x, p), c);
    assert before - {x} == after - {x};
    assert st.cl[x].peer == c <==> x in before;
    assert p == c <==> x in after;
    assert |before - {x}| == |before| - if x in before then 1 else 0;
    assert |after - {x}| == |after| - if x in after then 1 else 0;
  }

  lemma TradeOne(held: multiset<Client>, p: Client?, q: Client?, x: Client)
    requires p != null ==> p in held
    ensures (held - Bag(p) + Bag(q))[x] + Bag(p)[x] == held[x] + Bag(q)[x]
  {
  }

  lemma CountMoves(st: State, c: Client, p: Client?, held: multiset<Client>, x: Client)
    requires c in st.cl && (p != null ==> p in held)
    ensures |PointersTo(SetPeer(st, c, p), x)| + (held - Bag(p) + Bag(st.cl[c].peer))[x] == |PointersTo(st, x)| + held[x]
  {
    PointerMoves(st, c, p, x);
    TradeOne(held, p, st.cl[c].peer, x);
  }

  lemma PointersStay(st: State, r: State)
    requires r.cl.Keys == st.cl.Keys
    requires forall c :: c in st.cl ==> r.cl[c].peer == st.cl[c].peer
    ensures forall c :: c in st.cl ==> PointersTo(r, c) == PointersTo(st, c)
  {
  }

  // ----- the surrogate of a body -----

  /** A body works on a surrogate that its socket points to, until the close handler of the
      socket runs. */
  lemma BodyPoints(st: State, c: Client)
    requires LinksOk(st) && IsSocket(st, c) && At(st, c).phase.InBody?
    ensures c in PointersTo(st, At(st, c).phase.surrogate) <==> !At(st, c).life.Closed?
  {
    assert ClientOk(st, c) && CalmAt(st, c);
  }

  /** The handler takes that pointer away, and no other one. */
  lemma HandlerLetsGo(st: State, c: Client, reason: Reason)
    requires LinksOk(st) && IsSocket(st, c) && At(st, c).phase.InBody? && Enabled(st, HandlerStep(c, reason))
    ensures var s := At(st, c).phase.surrogate;
            PointersTo(CloseHandler(st, c, reason), s) == PointersTo(st, s) - {c}
  {
    assert ClientOk(st, c) && CalmAt(st, c);
  }

  lemma SomebodyAnswers(st: State, c: Client)
    requires Sound(st) && IsSocket(st, c) && At(st, c).phase.InBody? && MessagesSurvive(st, c)
    ensures var s := At(st, c).phase.surrogate;
            var st1 := SetPeer(Flush(SetPhase(st, c, Idle), s), s, null);
            var p := At(st, s).peer;
            && IsSurrogate(st, s)
            && (At(st, s).wbuff != [] ==>
                  Answers(st1, p) || Answers(PollingModel.SendResponse(st1, p, S200, s, At(st, s).wbuff), c))
  {
    var s := At(st, c).phase.surrogate;
    BodyDetails(st, c);
    assert SoundAt(st, c);
    var st1 := SetPeer(Flush(SetPhase(st, c, Idle), s), s, null);
    var p := At(st, s).peer;
    if p != c { ResponseSpares(st1, p, S200, s, At(st, s).wbuff, c); }
  }

  // ----- the critical sections of a response, one after the other -----

  ghost function Finished(st: State, c: Client, status: Status, origin: Client?, body: seq<Message>): State {
    var v := At(st, c);
    if v.inRequest then
      Put(st, c, v.(inRequest := false, life := if v.request.keepAlive then v.life else Shut(v.life)))
      .(log := st.log + [Response(c, status, origin, body)])
    else st
  }

  ghost function Released(st: State, s: Client?, c: Client): State {
    if s != null && At(st, s).peer == c then SetPeer(st, s, null) else st
  }

  lemma ResponseInSections(st: State, c: Client, status: Status, origin: Client?, body: seq<Message>)
    requires c in st.cl
    ensures Released(Finished(SetPeer(st, c, null), c, status, origin, body), st.cl[c].peer, c)
            == PollingModel.SendResponse(st, c, status, origin, body)
  {
    var st1 := SetPeer(st, c, null);
    var st2 := Finished(st1, c, status, origin, body);
    var v := At(st, c);
    var life := if v.inRequest && !v.request.keepAlive then Shut(v.life) else v.life;
    assert st2.cl == st.cl[c := v.(peer := null, inRequest := false, life := life)];
  }

  lemma PeerTwice(st: State, s: Client, p: Client?, q: Client?)
    ensures SetPeer(SetPeer(st, s, p), s, q) == SetPeer(st, s, q)
  {
    assert SetPeer(SetPeer(st, s, p), s, q).cl == SetPeer(st, s, q).cl;
  }

  class Server {
    ghost var clients: set<Client>
    ghost var log: seq<Event>

    constructor ()
      ensures clients == {} && Snap() == Init() && Counted(multiset{}) && Closed()
    {
      clients, log := {}, [];
      new;
      assert Snap().cl == map[];
    }

    ghost function Snap(): State
      reads this, clients
    {
      State(map c | c in clients :: c.AsView(), log)
    }

    /** The references on a client are the pointers to it and those held on the stack. */
    ghost predicate Counted(held: multiset<Client>)
      reads this, clients
    {
      forall c {:trigger c.refs} :: c in clients ==> c.refs == |PointersTo(Snap(), c)| + held[c]
    }

    ghost predicate Closed()
      reads this, clients
    {
      forall c {:trigger c.peer} :: c in clients && c.peer != null ==> c.peer in clients
    }

    // ----- references and links -----

    method Ref(c: Client, ghost held: multiset<Client>)
      requires c in clients && Counted(held) && Closed()
      modifies c`refs
      ensures Snap() == old(Snap()) && Counted(held + multiset{c}) && Closed()
    {
      c.refs := c.refs + 1;
      assert Snap().cl == old(Snap()).cl;
    }

    /** A reference is only given back by someone who has one, so no count goes below 0. */
    method Unref(c: Client?, ghost held: multiset<Client>)
      requires c != null ==> c in clients && c in held
      requires Counted(held) && Closed()
      modifies clients`refs
      ensures Snap() == old(Snap()) && Counted(held - Bag(c)) && Closed()
    {
      if c != null {
        c.refs := c.refs - 1;
      }
      assert Snap().cl == old(Snap()).cl;
    }

    method WritePeer(c: Client, p: Client?)
      requires c in clients
      modifies c`peer
      ensures Snap() == SetPeer(old(Snap()), c, p) && c.peer == p
    {
      ghost var st := Snap();
      c.peer := p;
      assert Snap().cl == SetPeer(st, c, p).cl;
    }

    /** Overwriting a pointer trades the reference of the old target for that of the new. */
    method PutPeer(c: Client, p: Client?, ghost held: multiset<Client>)
      requires c in clients && (p != null ==> p in clients && p in held)
      requires Counted(held) && Closed()
      modifies c`peer
      ensures Snap() == SetPeer(old(Snap()), c, p) && c.peer == p
      ensures Counted(held - Bag(p) + Bag(old(c.peer))) && Closed()
    {
      ghost var st := Snap();
      forall x | x in clients
        ensures x.refs == |PointersTo(SetPeer(st, c, p), x)| + (held - Bag(p) + Bag(c.peer))[x]
      {
        assert x.refs == |PointersTo(st, x)| + held[x];
        CountMoves(st, c, p, held, x);
      }
      WritePeer(c, p);
    }

    method StealClient(c: Client, ghost held: multiset<Client>) returns (p: Client?)
      requires c in clients && Counted(held) && Closed()
      modifies c`peer
      ensures p == old(c.peer) && Snap() == SetPeer(old(Snap()), c, null)
      ensures Counted(held + Bag(p)) && Closed()
    {
      p := c.peer;
      PutPeer(c, null, held);
      assert held - Bag(null) + Bag(p) == held + Bag(p);
    }

    method SurrReleaseClient(surrogate: Client?, client: Client, ghost held: multiset<Client>)
      requires client in clients && (surrogate != null ==> surrogate in clients)
      requires Counted(held) && Closed()
      modifies clients`peer, clients`refs
      ensures Counted(held) && Closed()
      ensures Snap() == Released(old(Snap()), surrogate, client)
    {
      var unref := false;
      if surrogate == null {
        return;
      }
      if surrogate.peer == client {
        unref := true;
        var _ := StealClient(surrogate, held);
      }
      if unref {
        Unref(client, held + multiset{client});
        assert held + multiset{client} - Bag(client) == held;
      }
    }

    method QevClose(c: Client, ghost held: multiset<Client>)
      requires c in clients && Counted(held) && Closed()
      modifies c`life
      ensures Snap() == Close(old(Snap()), c) && Counted(held) && Closed()
    {
      ghost var st := Snap();
      c.life := Shut(c.life);
      assert Snap().cl == st.cl[c := c.AsView()];
      PointersStay(st, Snap());
    }

    // ----- responses -----

    method EndRequest(client: Client, status: Status, ghost origin: Client?, body: seq<Message>, ghost held: multiset<Client>)
      requires client in clients && client.inRequest && Counted(held) && Closed()
      modifies this`log, client`inRequest, client`life
      ensures Snap() == Finished(old(Snap()), client, status, origin, body)
      ensures Counted(held) && Closed()
    {
      ghost var st := Snap();
      client.inRequest := false;
      log := log + [Response(client, status, origin, body)];
      if !client.request.keepAlive {
        client.life := Shut(client.life);
      }
      assert Snap().cl == st.cl[client := client.AsView()];
      PointersStay(st, Snap());
    }

    /** Whoever finds the request open writes the response. */
    method WriteResponse(client: Client, status: Status, ghost origin: Client?, body: seq<Message>, ghost held: multiset<Client>)
      returns (sent: bool)
      requires client in clients && Counted(held) && Closed()
      modifies this`log, client`inRequest, client`life
      ensures sent == old(client.inRequest)
      ensures Snap() == Finished(old(Snap()), client, status, origin, body)
      ensures Counted(held) && Closed()
    {
      sent := client.inRequest;
      if sent {
        EndRequest(client, status, origin, body, held);
      }
    }

    method SendResponse(client: Client?, status: Status, ghost origin: Client?, body: seq<Message>, ghost held: multiset<Client>)
      returns (sent: bool)
      requires (client != null ==> client in clients) && Counted(held) && Closed()
      modifies this`log, clients`peer, clients`refs, clients`inRequest, clients`life
      ensures sent == Answers(old(Snap()), client)
      ensures Snap() == PollingModel.SendResponse(old(Snap()), client, status, origin, body)
      ensures Counted(held) && Closed()
    {
      sent := false;
      if client == null {
        return;
      }
      ResponseInSections(Snap(), client, status, origin, body);
      var surrogate := StealClient(client, held);
      sent := WriteResponse(client, status, origin, body, held + Bag(surrogate));
      SurrReleaseClient(surrogate, client, held + Bag(surrogate));
      Unref(surrogate, held + Bag(surrogate));
      assert held + Bag(surrogate) - Bag(surrogate) == held;
    }

    method SendError(client: Client?, status: Status, ghost held: multiset<Client>)
      requires (client != null ==> client in clients) && Counted(held) && Closed()
      modifies this`log, clients`peer, clients`refs, clients`inRequest, clients`life
      ensures Snap() == PollingModel.SendError(old(Snap()), client, status)
      ensures Counted(held) && Closed()
    {
      var _ := SendResponse(client, status, null, [], held);
    }

    /** The locked part of a replacement. */
    method SwapPoller(surrogate: Client, newPoller: Client, ghost held: multiset<Client>)
      returns (oldPoller: Client?, closing: bool)
      requires surrogate in clients && newPoller in clients && Counted(held) && Closed()
      modifies clients`peer, clients`refs
      ensures oldPoller == At(old(Snap()), surrogate).peer
      ensures closing == (!At(old(Snap()), surrogate).life.Open? || !At(old(Snap()), newPoller).life.Open?)
      ensures Snap() == SetPeer(old(Snap()), surrogate, if closing then null else newPoller)
      ensures Counted(held + Bag(oldPoller)) && Closed()
    {
      ghost var st := Snap();
      oldPoller := StealClient(surrogate, held);
      ghost var held1 := held + Bag(oldPoller);
      closing := !surrogate.life.Open? || !newPoller.life.Open?;
      if !closing {
        Ref(newPoller, held1);
        PutPeer(surrogate, newPoller, held1 + multiset{newPoller});
        assert held1 + multiset{newPoller} - Bag(newPoller) + Bag(null) == held1;
        PeerTwice(st, surrogate, null, newPoller);
      }
    }

    method SurrReplace(surrogate: Client, newPoller: Client, ghost held: multiset<Client>)
      requires surrogate in clients && newPoller in clients
      requires Counted(held) && Closed()
      modifies this`log, clients`peer, clients`refs, clients`inRequest, clients`life
      ensures Snap() == Replace(old(Snap()), surrogate, newPoller)
      ensures Counted(held) && Closed()
    {
      var oldPoller, closing := SwapPoller(surrogate, newPoller, held);
      if closing {
        SendError(newPoller, S403, held + Bag(oldPoller));
      }
      if oldPoller != null {
        SendError(oldPoller, if closing then S403 else S200, held + Bag(oldPoller));
        Unref(oldPoller, held + Bag(oldPoller));
      }
      assert held + Bag(oldPoller) - Bag(oldPoller) == held == held + Bag(null);
    }

    /** Offers the messages to the current poller. */
    method SendToPoller(surrogate: Client, msgs: seq<Message>, ghost held: multiset<Client>) returns (sent: bool)
      requires surrogate in clients && Counted(held) && Closed()
      modifies this`log, clients`peer, clients`refs, clients`inRequest, clients`life
      ensures var st := old(Snap());
              var p := At(st, surrogate).peer;
              && sent == Answers(SetPeer(st, surrogate, null), p)
              && Snap() == PollingModel.SendResponse(SetPeer(st, surrogate, null), p, S200, surrogate, msgs)
      ensures Counted(held) && Closed()
    {
      sent := false;
      var poller := StealClient(surrogate, held);
      if poller != null {
        sent := SendResponse(poller, S200, surrogate, msgs, held + Bag(poller));
        Unref(poller, held + Bag(poller));
      }
      assert held + Bag(poller) - Bag(poller) == held == held + Bag(null);
    }

    /** The assertion on the new poller is a proof obligation here. */
    method SurrSend(surrogate: Client, newPoller: Client, msgs: seq<Message>, ghost held: multiset<Client>)
      requires surrogate in clients && newPoller in clients && Counted(held) && Closed()
      requires var st := SetPeer(Snap(), surrogate, null);
               var p := At(Snap(), surrogate).peer;
               Answers(st, p) || Answers(PollingModel.SendResponse(st, p, S200, surrogate, msgs), newPoller)
      modifies this`log, clients`peer, clients`refs, clients`inRequest, clients`life
      ensures Snap() == PollingModel.SurrSend(old(Snap()), surrogate, newPoller, msgs)
      ensures Counted(held) && Closed()
    {
      var sent := SendToPoller(surrogate, msgs, held);
      if sent {
        SurrReplace(surrogate, newPoller, held);
      } else {
        var ok := SendResponse(newPoller, S200, surrogate, msgs, held);
        assert ok;
      }
    }

    // ----- entry points -----

    /** Nothing is held between entry points. */
    ghost predicate Valid()
      reads this, clients
    {
      Counted(multiset{}) && Sound(Snap())
    }

    lemma ValidIsClosed()
      requires Valid()
      ensures Closed()
    {
      forall c | c in clients && c.peer != null
        ensures c.peer in clients
      {
        assert SoundAt(Snap(), c);
      }
    }

    /** The surrogate of a body has a reference of this layer exactly as long as the close handler
        of its socket has not run, or another socket is linked to it. */
    lemma BodyHasReference(c: Client)
      requires Valid() && LinksOk(Snap()) && c in clients && !c.isSurrogate && c.phase.InBody?
      ensures var s := c.phase.surrogate;
              && s in clients
              && (s.refs > 0 <==> !c.life.Closed? || exists x <- clients :: x != c && x.peer == s)
    {
      var st := Snap();
      var s := c.phase.surrogate;
      assert ClientOk(st, c);
      BodyPoints(st, c);
      assert s.refs == |PointersTo(st, s)|;
      assert forall x <- clients :: x in PointersTo(st, s) <==> x.peer == s;
      assert PointersTo(st, s) != {} <==> exists x <- clients :: x.peer == s;
    }

    method Add(c: Client)
      requires Valid() && c !in clients && c.refs == 0 && c.AsView() == FreshView()
      modifies this`clients
      ensures Valid() && Snap() == Apply(old(Snap()), New(c))
    {
      ValidIsClosed();
      ghost var st := Snap();
      clients := clients + {c};
      assert Snap().cl == st.cl[c := FreshView()];
      SoundKept(st, New(c));
      forall x | x in clients
        ensures PointersTo(Snap(), x) == PointersTo(st, x) && (x == c ==> PointersTo(st, x) == {})
      {
      }
    }

    method MovePhase(c: Client, phase: Phase, ghost held: multiset<Client>)
      requires c in clients && Counted(held) && Closed()
      modifies c`phase
      ensures Snap() == SetPhase(old(Snap()), c, phase) && Counted(held) && Closed()
    {
      ghost var st := Snap();
      c.phase := phase;
      assert Snap().cl == st.cl[c := c.AsView()];
      PointersStay(st, Snap());
    }

    method BeginRequest(c: Client, keepAlive: bool, ghost held: multiset<Client>)
      requires c in clients && Counted(held) && Closed()
      modifies this`log, c`inRequest, c`request
      ensures Snap() == Begin(old(Snap()), c, keepAlive) && Counted(held) && Closed()
    {
      ghost var st := Snap();
      c.inRequest, c.request := true, c.request.(keepAlive := keepAlive);
      log := log + [Begun(c)];
      assert Snap().cl == st.cl[c := c.AsView()];
      PointersStay(st, Snap());
    }

    method LinkSurrogate(c: Client, surrogate: Client?, ghost held: multiset<Client>)
      requires c in clients && (surrogate != null ==> surrogate in clients) && c.peer == null
      requires Counted(held) && Closed()
      modifies clients`peer, clients`refs
      ensures Snap() == Link(old(Snap()), c, surrogate) && Counted(held) && Closed()
    {
      if surrogate != null && surrogate.life.Open? && c.life.Open? {
        Ref(surrogate, held);
        PutPeer(c, surrogate, held + multiset{surrogate});
        assert held + multiset{surrogate} - Bag(surrogate) + Bag(null) == held;
      }
    }

    method RecordKind(c: Client, post: bool, frame: bool, ghost held: multiset<Client>)
      requires c in clients && Counted(held) && Closed()
      modifies c`request, c`phase
      ensures Snap() == SetKind(old(Snap()), c, post, frame) && Counted(held) && Closed()
    {
      ghost var st := Snap();
      c.request, c.phase := c.request.(isPost := post, iframe := frame), Await;
      assert Snap().cl == st.cl[c := c.AsView()];
      PointersStay(st, Snap());
    }

    /** A new request on a socket; the request before it is answered first. */
    method RouteHeaders(c: Client, keepAlive: bool, h: Headers)
      requires Valid() && Possible(Snap(), HeadersStep(c, keepAlive, h))
      modifies this`log, clients
      ensures Valid() && Snap() == Apply(old(Snap()), HeadersStep(c, keepAlive, h))
    {
      ValidIsClosed();
      ghost var st := Snap();
      assert SoundAt(st, c);
      ResponseEffect(st, c, S200, null, []);
      SoundKept(st, HeadersStep(c, keepAlive, h));
      SendError(c, S200, multiset{});
      BeginRequest(c, keepAlive, multiset{});
      assert At(Snap(), c).peer == null;
      Follow(c, h);
    }

    method Follow(c: Client, h: Headers)
      requires c in clients && c.peer == null && (h.Http? && h.surrogate != null ==> h.surrogate in clients)
      requires Counted(multiset{}) && Closed()
      modifies this`log, clients
      ensures Snap() == FollowHeaders(old(Snap()), c, h) && Counted(multiset{})
    {
      match h
      case Malformed | BadLength | LengthRequired => QevClose(c, multiset{});
      case Upgrade => MovePhase(c, Upgraded, multiset{});
      case UpgradeRefused(status) =>
        MovePhase(c, Await, multiset{});
        SendError(c, status, multiset{});
      case Http(post, frame, surrogate) =>
        LinkSurrogate(c, surrogate, multiset{});
        RecordKind(c, post, frame, multiset{});
    }

    method StartBody(c: Client, surrogate: Client, ghost held: multiset<Client>)
      requires c in clients && surrogate in clients && Counted(held) && Closed()
      modifies c`phase, surrogate`incoming
      ensures Snap() == BeginBody(old(Snap()), c, surrogate) && Counted(held) && Closed()
    {
      MovePhase(c, InBody(surrogate), held);
      ghost var st := Snap();
      surrogate.incoming := true;
      assert Snap().cl == st.cl[surrogate := surrogate.AsView()];
      PointersStay(st, Snap());
    }

    /** The body has arrived. */
    method RouteBody(c: Client, public: bool)
      requires Valid() && Possible(Snap(), BodyStep(c, public))
      modifies this`log, clients
      ensures Valid() && Snap() == Apply(old(Snap()), BodyStep(c, public))
    {
      ValidIsClosed();
      SoundKept(Snap(), BodyStep(c, public));
      MovePhase(c, Idle, multiset{});
      if !public {
        SendError(c, S501, multiset{});
      } else if c.request.iframe {
        var _ := SendResponse(c, S200, null, [], multiset{});
      } else if !c.request.isPost {
        SendError(c, S405, multiset{});
      } else {
        var surrogate := c.peer;
        if surrogate == null {
          SendError(c, S403, multiset{});
        } else {
          StartBody(c, surrogate, multiset{});
        }
      }
    }

    method TakeBuffer(surrogate: Client, ghost held: multiset<Client>) returns (msgs: seq<Message>)
      requires surrogate in clients && Counted(held) && Closed()
      modifies surrogate`incoming, surrogate`wbuff
      ensures msgs == At(old(Snap()), surrogate).wbuff
      ensures Snap() == Flush(old(Snap()), surrogate) && Counted(held) && Closed()
    {
      ghost var st := Snap();
      surrogate.incoming := false;
      msgs := surrogate.wbuff;
      surrogate.wbuff := [];
      assert Snap().cl == st.cl[surrogate := surrogate.AsView()];
      PointersStay(st, Snap());
    }

    /** All events of the body have been handled. That somebody is left to take the messages is
        what the assertion in the source demands. */
    method FinishBody(c: Client)
      requires Valid() && Possible(Snap(), EndStep(c)) && MessagesSurvive(Snap(), c)
      modifies this`log, clients
      ensures Valid() && Snap() == Apply(old(Snap()), EndStep(c))
    {
      ValidIsClosed();
      ghost var st := Snap();
      SoundKept(st, EndStep(c));
      assert SoundAt(st, c);
      SomebodyAnswers(st, c);
      var surrogate := c.phase.surrogate;
      MovePhase(c, Idle, multiset{});
      var msgs := TakeBuffer(surrogate, multiset{});
      if msgs == [] {
        SurrReplace(surrogate, c, multiset{});
      } else {
        SurrSend(surrogate, c, msgs, multiset{});
      }
    }

    /** An event of the body could not be parsed. */
    method AbandonBody(c: Client)
      requires Valid() && Possible(Snap(), FailStep(c))
      modifies this`log, clients
      ensures Valid() && Snap() == Apply(old(Snap()), FailStep(c))
    {
      ValidIsClosed();
      SoundKept(Snap(), FailStep(c));
      assert SoundAt(Snap(), c);
      var surrogate := c.phase.surrogate;
      MovePhase(c, Idle, multiset{});
      QevClose(surrogate, multiset{});
      SendError(c, S400, multiset{});
    }

    /** `kept` is false when the library drops a write to a client that is closing. */
    method WriteBuffer(surrogate: Client, m: Message, kept: bool, ghost held: multiset<Client>)
      requires surrogate in clients && Counted(held) && Closed()
      modifies surrogate`wbuff
      ensures Snap() == Buffer(old(Snap()), surrogate, m, kept) && Counted(held) && Closed()
    {
      ghost var st := Snap();
      if kept {
        surrogate.wbuff := surrogate.wbuff + [m];
      }
      assert Snap().cl == st.cl[surrogate := surrogate.AsView()];
      PointersStay(st, Snap());
    }

    ghost method NoteSent(surrogate: Client, m: Message, held: multiset<Client>)
      requires Counted(held) && Closed()
      modifies this`log
      ensures Snap() == Record(old(Snap()), surrogate, m) && Counted(held) && Closed()
    {
      ghost var st := Snap();
      log := log + [Sent(surrogate, m)];
      PointersStay(st, Snap());
    }

    method Send(surrogate: Client, m: Message, kept: bool)
      requires Valid() && Possible(Snap(), SendStep(surrogate, m, kept))
      modifies this`log, clients
      ensures Valid() && Snap() == Apply(old(Snap()), SendStep(surrogate, m, kept))
    {
      ValidIsClosed();
      SoundKept(Snap(), SendStep(surrogate, m, kept));
      Deliver(surrogate, m, kept);
    }

    method Deliver(surrogate: Client, m: Message, kept: bool)
      requires surrogate in clients && Counted(multiset{}) && Closed()
      modifies this`log, clients
      ensures Snap() == HttpSend(old(Snap()), surrogate, m, kept) && Counted(multiset{})
    {
      NoteSent(surrogate, m, multiset{});
      var sent := false;
      if !surrogate.incoming {
        sent := SendToPoller(surrogate, [m], multiset{});
      }
      if !sent {
        WriteBuffer(surrogate, m, kept, multiset{});
      }
    }

    /** A periodic tick that found the threshold of the client passed. */
    method Beat(c: Client)
      requires Valid() && Possible(Snap(), HeartbeatStep(c))
      modifies this`log, clients
      ensures Valid() && Snap() == Apply(old(Snap()), HeartbeatStep(c))
    {
      ValidIsClosed();
      SoundKept(Snap(), HeartbeatStep(c));
      if c.isSurrogate {
        if c.peer == null {
          QevClose(c, multiset{});
        }
      } else {
        if c.peer == null {
          QevClose(c, multiset{});
        } else {
          SendError(c, S200, multiset{});
        }
      }
    }

    method Finish(c: Client, ghost held: multiset<Client>)
      requires c in clients && Counted(held) && Closed()
      modifies c`life
      ensures Snap() == MarkClosed(old(Snap()), c) && Counted(held) && Closed()
    {
      ghost var st := Snap();
      c.life := Life.Closed;
      assert Snap().cl == st.cl[c := c.AsView()];
      PointersStay(st, Snap());
    }

    method HandleClose(c: Client, reason: Reason)
      requires Valid() && Possible(Snap(), HandlerStep(c, reason))
      modifies this`log, clients
      ensures Valid() && Snap() == Apply(old(Snap()), HandlerStep(c, reason))
    {
      ValidIsClosed();
      SoundKept(Snap(), HandlerStep(c, reason));
      if c.isSurrogate {
        var client := StealClient(c, multiset{});
        SendError(client, S403, multiset{} + Bag(client));
        Unref(client, multiset{} + Bag(client));
        assert multiset{} + Bag(client) - Bag(client) == multiset{};
      } else {
        var surrogate := StealClient(c, multiset{});
        match reason {
          case BadRequest => SendError(c, S400, multiset{} + Bag(surrogate));
          case NoLength => SendError(c, S411, multiset{} + Bag(surrogate));
          case OutOfMemory => SendError(c, S413, multiset{} + Bag(surrogate));
          case Other =>
        }
        if surrogate != null {
          QevClose(surrogate, multiset{} + Bag(surrogate));
          Unref(surrogate, multiset{} + Bag(surrogate));
        }
        assert multiset{} + Bag(surrogate) - Bag(surrogate) == multiset{} == multiset{} + Bag(null);
      }
      Finish(c, multiset{});
    }
  }
}
