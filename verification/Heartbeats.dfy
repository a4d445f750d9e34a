/**
 Heartbeats: what the timer does to each client every ten seconds, and what comes of it. Times
 are in microseconds.
 */
module Heartbeats {
  import opened Options

  const SECOND: int := 1_000_000
  const TICK: int := 10 * SECOND
  const POLL: int := 55 * SECOND
  const INTERVAL: int := 61 * SECOND
  const CHALLENGE: int := 60 * 15 * SECOND
  const DEAD: int := CHALLENGE + 60 * SECOND

  /** Who has not sent or received anything since these times is due. */
  datatype Intervals = Intervals(timeout: int, poll: int, heartbeat: int, challenge: int, dead: int)

  function IntervalsAt(now: int, timeout: int): Intervals {
    Intervals(now - timeout, now - POLL + TICK, now - INTERVAL + TICK, now - CHALLENGE, now - DEAD)
  }

  // ----- raw and WebSocket clients -----

  /** A client, with everything that was sent to it, and the challenges it was sent since it was
      last heard of. */
  datatype Peer = Peer(lastSend: int, lastRecv: int, closedAt: Option<int>, sends: seq<int>, challenges: seq<int>)

  function Send(p: Peer, now: int): Peer {
    p.(lastSend := now, sends := p.sends + [now])
  }

  function Beat(p: Peer, hb: Intervals, now: int): Peer {
    if p.lastRecv < hb.dead then p.(closedAt := Some(now))
    else if p.lastRecv < hb.challenge then Send(p, now).(challenges := p.challenges + [now])
    else if p.lastSend < hb.heartbeat then Send(p, now)
    else p
  }

  /** A client, the time, and the time of the next tick. */
  datatype Raw = Raw(p: Peer, now: int, next: int)

  datatype RawStep = Tick | Sent(t: int) | Received(t: int)

  /** Ticks come ten seconds apart, and nothing else overtakes them. */
  predicate RawEnabled(st: Raw, s: RawStep) {
    match s
    case Tick => true
    case Sent(t) => st.p.closedAt.None? && st.now <= t <= st.next
    case Received(t) => st.p.closedAt.None? && st.now <= t <= st.next
  }

  function RawApply(st: Raw, s: RawStep, timeout: int): Raw {
    match s
    case Tick =>
      var p := if st.p.closedAt.None? then Beat(st.p, IntervalsAt(st.next, timeout), st.next) else st.p;
      Raw(p, st.next, st.next + TICK)
    case Sent(t) => st.(p := Send(st.p, t), now := t)
    case Received(t) => st.(p := st.p.(lastRecv := t, challenges := []), now := t)
  }

  /** A client that has just shaken hands. */
  predicate RawStart(st: Raw) {
    && st.p == Peer(st.now, st.now, None, [st.now], [])
    && st.now <= st.next <= st.now + TICK
  }

  ghost predicate IsRawRun(states: seq<Raw>, steps: seq<RawStep>, timeout: int) {
    && |states| == |steps| + 1 && RawStart(states[0])
    && forall k {:trigger steps[k]} :: 0 <= k < |steps| ==>
         RawEnabled(states[k], steps[k]) && states[k + 1] == RawApply(states[k], steps[k], timeout)
  }

  /** How many ticks up to now came more than fifteen minutes after the client was heard of. */
  function Late(st: Raw): int {
    var d := st.next - st.p.lastRecv;
    if d <= CHALLENGE then 0 else (d - CHALLENGE - 1) / TICK
  }

  predicate Close(sends: seq<int>, i: nat) {
    i + 1 < |sends| ==> 0 <= sends[i + 1] - sends[i] <= INTERVAL
  }

  predicate ChallengeOk(st: Raw, i: nat) {
    i < |st.p.challenges| ==> CHALLENGE < st.p.challenges[i] - st.p.lastRecv <= DEAD
  }

  ghost predicate RawInv(st: Raw) {
    && st.now <= st.next <= st.now + TICK
    && st.p.lastSend <= st.now && st.p.lastRecv <= st.now
    && st.p.sends != [] && st.p.sends[|st.p.sends| - 1] == st.p.lastSend
    && (forall i: nat {:trigger Close(st.p.sends, i)} :: Close(st.p.sends, i))
    && (forall i: nat {:trigger ChallengeOk(st, i)} :: ChallengeOk(st, i))
    && match st.p.closedAt
       case None =>
         && st.next - st.p.lastSend <= INTERVAL
         && st.next - st.p.lastRecv <= DEAD + TICK
         && |st.p.challenges| == Late(st)
       case Some(t) =>
         DEAD < t - st.p.lastRecv <= DEAD + TICK && |st.p.challenges| == 6
  }

  lemma StartInv(st: Raw)
    requires RawStart(st)
    ensures RawInv(st)
  {
    forall i: nat ensures Close(st.p.sends, i) && ChallengeOk(st, i) { }
  }

  lemma SendKeepsClose(sends: seq<int>, t: int)
    requires sends != [] && 0 <= t - sends[|sends| - 1] <= INTERVAL
    requires forall i: nat {:trigger Close(sends, i)} :: Close(sends, i)
    ensures forall i: nat {:trigger Close(sends + [t], i)} :: Close(sends + [t], i)
  {
    forall i: nat ensures Close(sends + [t], i) { assert Close(sends, i); }
  }

  lemma LateNext(st: Raw)
    requires st.next - st.p.lastRecv <= DEAD + TICK
    ensures var d := st.next - st.p.lastRecv;
            && Late(st.(next := st.next + TICK)) == (if CHALLENGE < d then Late(st) + 1 else 0)
            && (DEAD < d ==> Late(st) == 6)
  {
  }

  lemma TickKeeps(st: Raw, timeout: int)
    requires RawInv(st)
    ensures RawInv(RawApply(st, Tick, timeout))
  {
    var next := RawApply(st, Tick, timeout);
    if st.p.closedAt.None? {
      LateNext(st);
      SendKeepsClose(st.p.sends, st.next);
    }
    forall i: nat ensures ChallengeOk(next, i) { assert ChallengeOk(st, i); }
  }

  lemma RawStepKeeps(st: Raw, s: RawStep, timeout: int)
    requires RawInv(st) && RawEnabled(st, s)
    ensures RawInv(RawApply(st, s, timeout))
  {
    var next := RawApply(st, s, timeout);
    match s
    case Tick => TickKeeps(st, timeout);
    case Sent(t) =>
      SendKeepsClose(st.p.sends, t);
      forall i: nat ensures ChallengeOk(next, i) { assert ChallengeOk(st, i); }
    case Received(t) =>
      forall i: nat ensures ChallengeOk(next, i) { }
  }

  lemma {:induction false} RawRunKeeps(states: seq<Raw>, steps: seq<RawStep>, timeout: int, k: nat)
    requires IsRawRun(states, steps, timeout) && k < |states|
    ensures RawInv(states[k])
  {
    if k == 0 {
      StartInv(states[0]);
    } else {
      RawRunKeeps(states, steps, timeout, k - 1);
      assert RawEnabled(states[k - 1], steps[k - 1]);
      RawStepKeeps(states[k - 1], steps[k - 1], timeout);
    }
  }

  /** An open client is never left for more than 61 seconds without being sent something. */
  lemma SendsAreClose(states: seq<Raw>, steps: seq<RawStep>, timeout: int, k: nat, i: nat)
    requires IsRawRun(states, steps, timeout) && k < |states|
    ensures var p := states[k].p;
            && (i + 1 < |p.sends| ==> 0 <= p.sends[i + 1] - p.sends[i] <= 61_000_000)
            && p.sends != [] && p.sends[|p.sends| - 1] == p.lastSend
            && (p.closedAt.None? ==> states[k].now <= states[k].next && states[k].next - p.lastSend <= 61_000_000)
  {
    RawRunKeeps(states, steps, timeout, k);
    assert Close(states[k].p.sends, i);
  }

  /** A silent client is closed between 960 and 970 seconds after it was last heard of, and not
      sooner; until then it was sent six challenges, in the last minute before that. */
  lemma SixChallenges(states: seq<Raw>, steps: seq<RawStep>, timeout: int, k: nat)
    requires IsRawRun(states, steps, timeout) && k < |states|
    ensures var st := states[k];
            && (st.now - st.p.lastRecv > 970_000_000 ==> st.p.closedAt.Some?)
            && (st.p.closedAt.Some? ==>
                  960_000_000 < st.p.closedAt.value - st.p.lastRecv <= 970_000_000 && |st.p.challenges| == 6)
            && forall c <- st.p.challenges :: 900_000_000 < c - st.p.lastRecv <= 960_000_000
  {
    RawRunKeeps(states, steps, timeout, k);
    var st := states[k];
    forall c | c in st.p.challenges ensures CHALLENGE < c - st.p.lastRecv <= DEAD {
      var i: nat :| i < |st.p.challenges| && st.p.challenges[i] == c;
      assert ChallengeOk(st, i);
    }
  }

  /** A client; every method that can happen to it keeps what the theorems above rest on. */
  class Client {
    var lastSend: int
    var lastRecv: int
    var closedAt: Option<int>
    var sends: seq<int>
    var challenges: seq<int>
    ghost var now: int
    ghost var next: int

    ghost function Snap(): Peer
      reads this
    {
      Peer(lastSend, lastRecv, closedAt, sends, challenges)
    }

    ghost function View(): Raw
      reads this
    {
      Raw(Snap(), now, next)
    }

    /** The handshake is over, and counts as sent. */
    constructor (t: int, ghost next: int)
      requires t <= next <= t + TICK
      ensures RawStart(View()) && RawInv(View()) && lastSend == t && this.next == next
    {
      lastSend, lastRecv, closedAt, sends, challenges := t, t, None, [t], [];
      now, this.next := t, next;
      new;
      StartInv(View());
    }

    method Write(now: int)
      modifies this`lastSend, this`sends
      ensures Snap() == Send(old(Snap()), now)
    {
      sends := sends + [now];
      lastSend := now;
    }

    method DoHeartbeat(hb: Intervals, now: int)
      modifies this`lastSend, this`sends, this`challenges, this`closedAt
      ensures Snap() == Beat(old(Snap()), hb, now)
    {
      if lastRecv < hb.dead {
        closedAt := Some(now);
      } else if lastRecv < hb.challenge {
        Write(now);
        challenges := challenges + [now];
      } else if lastSend < hb.heartbeat {
        Write(now);
      }
    }

    /** A tick. An open client has been sent something so late that it is not too late at the next
        one. */
    method Periodic(t: int, timeout: int)
      requires RawInv(View()) && t == next
      modifies this
      ensures View() == RawApply(old(View()), Tick, timeout) && RawInv(View())
      ensures closedAt.None? ==> t + TICK - lastSend <= INTERVAL && t + TICK - lastRecv <= DEAD + TICK
    {
      TickKeeps(View(), timeout);
      if closedAt.None? {
        DoHeartbeat(IntervalsAt(t, timeout), t);
      }
      now, next := t, t + TICK;
    }

    method ProtocolsSend(t: int)
      requires RawInv(View()) && RawEnabled(View(), Sent(t))
      modifies this
      ensures View() == RawApply(old(View()), Sent(t), 0) && RawInv(View())
    {
      RawStepKeeps(View(), Sent(t), 0);
      Write(t);
      now := t;
    }

    method ProtocolsRoute(t: int)
      requires RawInv(View()) && RawEnabled(View(), Received(t))
      modifies this
      ensures View() == RawApply(old(View()), Received(t), 0) && RawInv(View())
    {
      RawStepKeeps(View(), Received(t), 0);
      lastRecv, challenges := t, [];
      now := t;
    }
  }

  // ----- HTTP sockets and surrogates -----

  /** An HTTP client: `linked` says that its `http.client` is set. */
  datatype Http = Http(surrogate: bool, linked: bool, inRequest: bool, lastSend: int, closedAt: Option<int>)

  /** Answers the request, if there still is one. */
  function Answer(h: Http, now: int): Http {
    if h.inRequest then h.(linked := false, inRequest := false, lastSend := now) else h.(linked := false)
  }

  function HttpBeat(h: Http, hb: Intervals, now: int): Http {
    if h.surrogate then
      (if !h.linked && h.lastSend < hb.timeout then h.(closedAt := Some(now)) else h)
    else if !h.linked then
      (if h.lastSend < hb.heartbeat then h.(closedAt := Some(now)) else h)
    else if h.lastSend < hb.poll then Answer(h, now)
    else h
  }

  /** A socket, the time, and the time of the next tick. */
  datatype Socket = Socket(h: Http, now: int, next: int)

  /** Data arrives, and if it completes the headers of a request, whatever is still open is
      answered and the request may be linked to a surrogate; or an answer is sent. */
  datatype HttpStep = Ticked | Data(t: int, headers: bool, link: bool) | Answered(t: int)

  predicate HttpEnabled(st: Socket, s: HttpStep) {
    match s
    case Ticked => true
    case Data(t, _, _) => st.h.closedAt.None? && st.now <= t <= st.next
    case Answered(t) => st.h.closedAt.None? && st.now <= t <= st.next
  }

  function HttpApply(st: Socket, s: HttpStep, timeout: int): Socket {
    match s
    case Ticked =>
      var h := if st.h.closedAt.None? then HttpBeat(st.h, IntervalsAt(st.next, timeout), st.next) else st.h;
      Socket(h, st.next, st.next + TICK)
    case Data(t, headers, link) =>
      var h := st.h.(lastSend := t);
      st.(h := if headers then Answer(h, t).(inRequest := true, linked := link) else h, now := t)
    case Answered(t) => st.(h := Answer(st.h, t), now := t)
  }

  ghost predicate IsHttpRun(states: seq<Socket>, steps: seq<HttpStep>, timeout: int) {
    && |states| == |steps| + 1
    && states[0].h == Http(false, false, false, states[0].now, None)
    && states[0].now <= states[0].next <= states[0].now + TICK
    && forall k {:trigger steps[k]} :: 0 <= k < |steps| ==>
         HttpEnabled(states[k], steps[k]) && states[k + 1] == HttpApply(states[k], steps[k], timeout)
  }

  predicate HttpInv(st: Socket) {
    && !st.h.surrogate && st.now <= st.next <= st.now + TICK && st.h.lastSend <= st.now
    && (st.h.linked ==> st.h.inRequest)
    && match st.h.closedAt
       case None => st.next - st.h.lastSend <= if st.h.linked then POLL else INTERVAL
       case Some(t) => !st.h.linked && INTERVAL - TICK < t - st.h.lastSend <= INTERVAL
  }

  /** A request that is linked to a surrogate is answered within 55 seconds of the last time its
      socket was sent or sent anything; a socket without one is closed within 61 seconds of it,
      and not before 51 have passed. */
  lemma {:induction false} PollsAreAnswered(states: seq<Socket>, steps: seq<HttpStep>, timeout: int, k: nat)
    requires IsHttpRun(states, steps, timeout) && k < |states|
    ensures HttpInv(states[k])
    ensures var st := states[k];
            match st.h.closedAt
            case None => st.now <= st.next && st.next - st.h.lastSend <= if st.h.linked then 55_000_000 else 61_000_000
            case Some(t) => !st.h.linked && 51_000_000 < t - st.h.lastSend <= 61_000_000
  {
    if k > 0 {
      PollsAreAnswered(states, steps, timeout, k - 1);
      assert HttpEnabled(states[k - 1], steps[k - 1]);
    }
  }

  // ----- surrogates -----

  /** A tick; or a poller comes, is answered or leaves. */
  datatype SurrogateStep = Passed | Came(t: int) | Served(t: int) | Left(t: int)

  predicate SurrogateEnabled(st: Socket, s: SurrogateStep) {
    match s
    case Passed => true
    case Came(t) => st.h.closedAt.None? && st.now <= t <= st.next
    case Served(t) => st.h.closedAt.None? && st.now <= t <= st.next
    case Left(t) => st.h.closedAt.None? && st.now <= t <= st.next
  }

  function SurrogateApply(st: Socket, s: SurrogateStep, timeout: int): Socket {
    match s
    case Passed => HttpApply(st, Ticked, timeout)
    case Came(t) => st.(h := st.h.(linked := true), now := t)
    case Served(t) => st.(h := st.h.(linked := false, lastSend := t), now := t)
    case Left(t) => st.(h := st.h.(linked := false), now := t)
  }

  ghost predicate IsSurrogateRun(states: seq<Socket>, steps: seq<SurrogateStep>, timeout: int) {
    && |states| == |steps| + 1
    && states[0].h == Http(true, false, false, states[0].now, None)
    && forall k {:trigger steps[k]} :: 0 <= k < |steps| ==>
         SurrogateEnabled(states[k], steps[k]) && states[k + 1] == SurrogateApply(states[k], steps[k], timeout)
  }

  /** A surrogate is closed at a tick exactly if it has no poller and its last answer is longer ago
      than the timeout; and it is closed in no other way. */
  lemma {:induction false} SurrogatesTimeOut(states: seq<Socket>, steps: seq<SurrogateStep>, timeout: int, k: nat)
    requires IsSurrogateRun(states, steps, timeout) && k < |states|
    ensures states[k].h.surrogate
    ensures k < |steps| && states[k].h.closedAt.None? ==>
              (states[k + 1].h.closedAt.Some? <==>
                 steps[k].Passed? && !states[k].h.linked && states[k].next - states[k].h.lastSend > timeout)
    ensures k < |steps| && states[k].h.closedAt.None? && states[k + 1].h.closedAt.Some? ==>
              states[k + 1].h.closedAt.value == states[k].next
    ensures k < |steps| && states[k].h.closedAt.Some? ==> states[k + 1].h == states[k].h
  {
    if k > 0 {
      SurrogatesTimeOut(states, steps, timeout, k - 1);
      assert SurrogateEnabled(states[k - 1], steps[k - 1]);
    }
    if k < |steps| {
      assert SurrogateEnabled(states[k], steps[k]);
    }
  }

  class HttpClient {
    const surrogate: bool
    var linked: bool
    var inRequest: bool
    var lastSend: int
    var closedAt: Option<int>
    ghost var now: int
    ghost var next: int

    ghost function Snap(): Http
      reads this
    {
      Http(surrogate, linked, inRequest, lastSend, closedAt)
    }

    ghost function View(): Socket
      reads this
    {
      Socket(Snap(), now, next)
    }

    constructor (surrogate: bool, t: int, ghost next: int)
      requires t <= next <= t + TICK
      ensures Snap() == Http(surrogate, false, false, t, None) && (surrogate || HttpInv(View()))
    {
      this.surrogate := surrogate;
      linked, inRequest, lastSend, closedAt := false, false, t, None;
      now, this.next := t, next;
    }

    method SendError(now: int)
      modifies this`linked, this`inRequest, this`lastSend
      ensures Snap() == Answer(old(Snap()), now)
    {
      linked := false;
      if inRequest {
        inRequest := false;
        lastSend := now;
      }
    }

    method Heartbeat(hb: Intervals, now: int)
      modifies this`linked, this`inRequest, this`lastSend, this`closedAt
      ensures Snap() == HttpBeat(old(Snap()), hb, now)
    {
      if surrogate {
        if !linked && lastSend < hb.timeout {
          closedAt := Some(now);
        }
      } else {
        if !linked {
          if lastSend < hb.heartbeat {
            closedAt := Some(now);
          }
        } else {
          if lastSend < hb.poll {
            SendError(now);
          }
        }
      }
    }

    /** A tick. A linked socket that is not answered now will not be too late at the next one. */
    method Periodic(t: int, timeout: int)
      requires HttpInv(View()) && t == next
      modifies this
      ensures View() == HttpApply(old(View()), Ticked, timeout) && HttpInv(View())
      ensures closedAt.None? ==> t + TICK - lastSend <= if linked then POLL else INTERVAL
    {
      if closedAt.None? {
        Heartbeat(IntervalsAt(t, timeout), t);
      }
      now, next := t, t + TICK;
    }

    method Route(t: int, headers: bool, link: bool)
      requires HttpInv(View()) && HttpEnabled(View(), Data(t, headers, link))
      modifies this
      ensures View() == HttpApply(old(View()), Data(t, headers, link), 0) && HttpInv(View())
    {
      lastSend := t;
      if headers {
        SendError(t);
        inRequest, linked := true, link;
      }
      now := t;
    }

    method SendResponse(t: int)
      requires HttpInv(View()) && HttpEnabled(View(), Answered(t))
      modifies this
      ensures View() == HttpApply(old(View()), Answered(t), 0) && HttpInv(View())
    {
      SendError(t);
      now := t;
    }
  }
}
