/**
 What holds of every client of the long-poll layer in all circumstances, whether its links are
 in order or not.
 */
module PollingRoles {
  import opened PollingModel
  import opened PollingLinks

  ghost predicate SoundAt(st: State, c: Client) { RolesOk(st, c) && BufferOk(st, c) }

  ghost predicate Sound(st: State) {
    forall c {:trigger SoundAt(st, c)} :: c in st.cl ==> SoundAt(st, c)
  }

  lemma LinkedIsSound(st: State)
    requires Linked(st)
    ensures Sound(st)
  {
    forall c | c in st.cl ensures SoundAt(st, c) { assert ClientOk(st, c); }
  }

  /** Overwriting one client. */
  lemma PutSound(st: State, c: Client, v: View)
    requires Sound(st) && SoundAt(Put(st, c, v), c)
    ensures Sound(Put(st, c, v))
  {
    var r := Put(st, c, v);
    forall x | x in r.cl ensures SoundAt(r, x) {
      assert x != c ==> SoundAt(st, x);
    }
  }

  lemma ResponseSound(st: State, c: Client?, status: Status, origin: Client?, body: seq<Message>)
    requires Sound(st) && (c != null ==> IsSocket(st, c))
    ensures Sound(SendResponse(st, c, status, origin, body))
  {
    if c != null {
      var r := SendResponse(st, c, status, origin, body);
      assert SoundAt(st, c);
      ResponseEffect(st, c, status, origin, body);
      forall x | x in r.cl ensures SoundAt(r, x) {
        assert SoundAt(st, x);
      }
    }
  }

  lemma ReplaceSound(st: State, s: Client, c: Client)
    requires Sound(st) && IsSurrogate(st, s) && IsSocket(st, c) && At(st, s).wbuff == []
    ensures Sound(Replace(st, s, c))
  {
    var old_ := At(st, s).peer;
    assert SoundAt(st, s) && SoundAt(st, c);
    if At(st, s).life.Open? && At(st, c).life.Open? {
      PutSound(st, s, At(st, s).(peer := c));
      ResponseSound(SetPeer(st, s, c), old_, S200, null, []);
    } else {
      var st1 := SetPeer(st, s, null);
      PutSound(st, s, At(st, s).(peer := null));
      ResponseSound(st1, c, S403, null, []);
      ResponseSound(SendError(st1, c, S403), old_, S403, null, []);
    }
  }

  lemma SurrSendSound(st: State, s: Client, c: Client, msgs: seq<Message>)
    requires Sound(st) && IsSurrogate(st, s) && IsSocket(st, c) && At(st, s).wbuff == []
    ensures Sound(SurrSend(st, s, c, msgs))
  {
    var p := At(st, s).peer;
    var st1 := SetPeer(st, s, null);
    assert SoundAt(st, s);
    assert p != null ==> SoundAt(st, p);
    PutSound(st, s, At(st, s).(peer := null));
    ResponseSound(st1, p, S200, s, msgs);
    var st2 := SendResponse(st1, p, S200, s, msgs);
    if Answers(st, p) {
      ReplaceSound(st2, s, c);
    } else {
      ResponseSound(st2, c, S200, s, msgs);
    }
  }

  lemma EndBodySound(st: State, c: Client)
    requires Sound(st) && IsSocket(st, c) && At(st, c).phase.InBody?
    ensures Sound(EndBody(st, c))
  {
    var s := At(st, c).phase.surrogate;
    var st0 := SetPhase(st, c, Idle);
    assert SoundAt(st, c) && SoundAt(st, s);
    PutSound(st, c, At(st, c).(phase := Idle));
    PutSound(st0, s, At(st0, s).(incoming := false, wbuff := []));
    if At(st, s).wbuff == [] {
      ReplaceSound(Flush(st0, s), s, c);
    } else {
      SurrSendSound(Flush(st0, s), s, c, At(st, s).wbuff);
    }
  }

  lemma FailBodySound(st: State, c: Client)
    requires Sound(st) && IsSocket(st, c) && At(st, c).phase.InBody?
    ensures Sound(FailBody(st, c))
  {
    var s := At(st, c).phase.surrogate;
    var st0 := SetPhase(st, c, Idle);
    assert SoundAt(st, c) && SoundAt(st, s);
    PutSound(st, c, At(st, c).(phase := Idle));
    PutSound(st0, s, At(st0, s).(life := Shut(At(st0, s).life)));
    ResponseSound(Close(st0, s), c, S400, null, []);
  }

  lemma HeadersSound(st: State, c: Client, keepAlive: bool, h: Headers)
    requires Sound(st) && Possible(st, HeadersStep(c, keepAlive, h))
    ensures Sound(DoHeaders(st, c, keepAlive, h))
  {
    assert SoundAt(st, c);
    ResponseSound(st, c, S200, null, []);
    ResponseEffect(st, c, S200, null, []);
    var st0 := SendError(st, c, S200);
    assert SoundAt(st0, c);
    PutSound(st0, c, At(Begin(st0, c, keepAlive), c));
    var st1 := Begin(st0, c, keepAlive);
    assert forall x | x in st1.cl :: SoundAt(Put(st0, c, At(st1, c)), x) ==> SoundAt(st1, x);
    FollowSound(st1, c, h);
  }

  lemma FollowSound(st: State, c: Client, h: Headers)
    requires Sound(st) && IsSocket(st, c) && At(st, c).peer == null && At(st, c).inRequest
    requires h.Http? && h.surrogate != null ==> IsSurrogate(st, h.surrogate)
    ensures Sound(FollowHeaders(st, c, h))
  {
    assert SoundAt(st, c);
    match h
    case Malformed | BadLength | LengthRequired => PutSound(st, c, At(st, c).(life := Shut(At(st, c).life)));
    case Upgrade => PutSound(st, c, At(st, c).(phase := Upgraded));
    case UpgradeRefused(status) =>
      PutSound(st, c, At(st, c).(phase := Await));
      ResponseSound(SetPhase(st, c, Await), c, status, null, []);
    case Http(post, frame, s) =>
      var r := SetKind(Link(st, c, s), c, post, frame);
      PutSound(st, c, At(r, c));
      assert r.cl == Put(st, c, At(r, c)).cl;
  }

  lemma BodySound(st: State, c: Client, public: bool)
    requires Sound(st) && Possible(st, BodyStep(c, public))
    ensures Sound(DoBody(st, c, public))
  {
    assert SoundAt(st, c);
    var st0 := SetPhase(st, c, Idle);
    PutSound(st, c, At(st, c).(phase := Idle));
    ResponseSound(st0, c, S501, null, []);
    ResponseSound(st0, c, S200, null, []);
    ResponseSound(st0, c, S405, null, []);
    ResponseSound(st0, c, S403, null, []);
    var s := At(st, c).peer;
    if s != null {
      assert SoundAt(st, s);
      var st1 := SetPhase(st0, c, InBody(s));
      PutSound(st0, c, At(st0, c).(phase := InBody(s)));
      PutSound(st1, s, At(st1, s).(incoming := true));
    }
  }

  lemma SendSound(st: State, s: Client, m: Message, kept: bool)
    requires Sound(st) && IsSurrogate(st, s)
    ensures Sound(HttpSend(st, s, m, kept))
  {
    var st0 := Record(st, s, m);
    assert SoundAt(st, s);
    forall x | x in st0.cl ensures SoundAt(st0, x) { assert SoundAt(st, x); }
    if At(st0, s).incoming {
      PutSound(st0, s, At(Buffer(st0, s, m, kept), s));
    } else {
      var p := At(st0, s).peer;
      var st1 := SetPeer(st0, s, null);
      PutSound(st0, s, At(st0, s).(peer := null));
      ResponseSound(st1, p, S200, s, [m]);
      var st2 := SendResponse(st1, p, S200, s, [m]);
      assert SoundAt(st2, s);
      PutSound(st2, s, At(Buffer(st2, s, m, kept), s));
    }
  }

  lemma HandlerSound(st: State, c: Client, reason: Reason)
    requires Sound(st) && c in st.cl
    ensures Sound(CloseHandler(st, c, reason))
  {
    assert SoundAt(st, c);
    var p := At(st, c).peer;
    var st1 := SetPeer(st, c, null);
    PutSound(st, c, At(st, c).(peer := null));
    if c.isSurrogate {
      ResponseSound(st1, p, S403, null, []);
      var st2 := SendError(st1, p, S403);
      assert SoundAt(st2, c);
      PutSound(st2, c, At(st2, c).(life := Closed));
    } else {
      FarewellEffect(st1, c, reason);
      FarewellSound(st1, c, reason);
      var st2 := Farewell(st1, c, reason);
      if p != null {
        assert SoundAt(st2, p);
        PutSound(st2, p, At(st2, p).(life := Shut(At(st2, p).life)));
      }
      var st3 := if p == null then st2 else Close(st2, p);
      assert SoundAt(st3, c);
      PutSound(st3, c, At(st3, c).(life := Closed));
    }
  }

  lemma FarewellSound(st: State, c: Client, reason: Reason)
    requires Sound(st) && IsSocket(st, c)
    ensures Sound(Farewell(st, c, reason))
  {
    ResponseSound(st, c, S400, null, []);
    ResponseSound(st, c, S411, null, []);
    ResponseSound(st, c, S413, null, []);
  }

  /** Every step keeps this, whatever happens inside bodies. */
  lemma SoundKept(st: State, step: Step)
    requires Sound(st) && Possible(st, step)
    ensures Sound(Apply(st, step))
  {
    match step
    case New(c) =>
      var r := Apply(st, step);
      forall x | x in r.cl ensures SoundAt(r, x) { assert x != c ==> SoundAt(st, x); }
    case HeadersStep(c, k, h) => HeadersSound(st, c, k, h);
    case BodyStep(c, public) => BodySound(st, c, public);
    case FailStep(c) => FailBodySound(st, c);
    case EndStep(c) => EndBodySound(st, c);
    case SendStep(c, m, kept) => SendSound(st, c, m, kept);
    case HeartbeatStep(c) =>
      assert SoundAt(st, c);
      PutSound(st, c, At(st, c).(life := Shut(At(st, c).life)));
      if !c.isSurrogate { ResponseSound(st, c, S200, null, []); }
    case CloseStep(c) =>
      assert SoundAt(st, c);
      PutSound(st, c, At(st, c).(life := Shut(At(st, c).life)));
    case HandlerStep(c, reason) => HandlerSound(st, c, reason);
  }
}
