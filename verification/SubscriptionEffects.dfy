/**
 What the operations on subscriptions do for a client, and what it is told.
 */
module SubscriptionEffects {
  import opened Options
  import opened SubscriptionModel
  import opened SubscriptionInvariants
  import opened EventReplies

  /** No other entry changes. */
  ghost predicate OthersStay(st: State, r: State, p: Pair) {
    forall q {:trigger q in r.entries} {:trigger q in st.entries} :: q != p ==>
      (q in r.entries <==> q in st.entries) && (q in st.entries ==> r.entries[q] == st.entries[q])
  }

  // ----- operations on entries -----

  /** Asking again takes a withdrawal back; asking anew waits for a verdict. */
  lemma AddDoes(st: State, p: Pair, fair: bool)
    ensures var r, v := Add(st, p, fair), AddVerdict(st, p, fair);
            && OthersStay(st, r, p)
            && (p.c in st.closing ==> r == st && v == Refused)
            && (p.c !in st.closing && p in st.entries ==>
                  r.entries[p] == Entry(st.entries[p].pending, false) && v == if st.entries[p].pending then Pending else Active)
            && (p.c !in st.closing && p !in st.entries && fair ==> p in r.entries && r.entries[p] == Entry(true, false) && v == Created)
            && (p.c !in st.closing && p !in st.entries && !fair ==> r == st && v == Refused)
  {
  }

  lemma CleanupDoes(st: State, p: Pair)
    ensures Cleanup(st, p).entries == st.entries - {p} && OthersStay(st, Cleanup(st, p), p)
  {
    CleanupEffect(st, p);
  }

  /** An entry that is accepted becomes active exactly if it was not withdrawn and the list had
      room; otherwise it goes. */
  lemma AcceptDoes(st: State, p: Pair, listed: bool)
    requires p in st.entries
    ensures var r, v := Accept(st, p, listed), AcceptVerdict(st, p, listed);
            && OthersStay(st, r, p)
            && (IsActive(r, p) <==> listed && !st.entries[p].tombstone)
            && (!IsActive(r, p) ==> p !in r.entries)
            && (v.Accepted? <==> IsActive(r, p))
            && (v.Failed? <==> !listed)
  {
    CleanupDoes(st, p);
  }

  /** Once it is active, and only then, the client is sent what is broadcast. */
  lemma AcceptedIsMember(st: State, p: Pair, listed: bool)
    requires Inv(st, {p}) && p in st.entries
    ensures var r := Accept(st, p, listed);
            p.s in r.subs && p.c in r.subs[p.s].members <==> listed && !st.entries[p].tombstone
  {
    var r := Accept(st, p, listed);
    AcceptKeeps(st, p, listed);
    AcceptDoes(st, p, listed);
    assert SubOk(r, p.s);
    if p.s in r.subs { assert MembersOk(r, p.s); }
    if p in r.entries { assert p in EntriesOn(r, p.s); }
  }

  lemma RejectDoes(st: State, p: Pair)
    ensures p !in Reject(st, p).entries && OthersStay(st, Reject(st, p), p)
  {
    CleanupDoes(st, p);
  }

  /** An entry that waits for its verdict is withdrawn; any other one goes. */
  lemma RemoveDoes(st: State, p: Pair)
    ensures var r := Remove(st, p);
            && OthersStay(st, r, p)
            && (p in st.entries && st.entries[p].pending ==> p in r.entries && r.entries[p] == Entry(true, true))
            && (p !in st.entries || !st.entries[p].pending ==> p !in r.entries)
  {
    CleanupDoes(st, p);
  }

  // ----- requests -----

  lemma VerdictDoes(st: State, success: bool, p: Pair, listed: bool)
    ensures var r := Verdict(st, success, p, listed);
            && OthersStay(st, r, p)
            && (IsActive(r, p) <==> success && listed && p in st.entries && !st.entries[p].tombstone)
            && (!IsActive(r, p) ==> p !in r.entries)
    ensures success ==> VerdictCode(st, success, p, listed) == if p in st.entries && listed then Ok else CalmDown
  {
    if p in st.entries {
      AcceptDoes(st, p, listed);
    }
    RejectDoes(st, p);
  }

  /** The subscription that a request is about, and the client's entry for it. */
  function PairOf(st: State, c: ClientId, key: Key, spare: SubId): Pair {
    Pair(c, if key in st.table then st.table[key] else spare)
  }

  lemma NewPairIsNew(st: State, c: ClientId, key: Key, spare: SubId)
    requires Inv(st, {}) && spare !in st.subs && key !in st.table
    ensures PairOf(st, c, key, spare) !in st.entries
  {
    assert SubOk(st, spare);
    var p := Pair(c, spare);
    assert p in st.entries <==> p in EntriesOn(st, spare);
  }

  /** A request after it has got hold of the subscription. */
  lemma OnIsSubscribe(st: State, c: ClientId, key: Key, cb: CallbackId, luck: Luck)
    ensures var p := PairOf(st, c, key, luck.spare);
            var st1 := Get(st, key, true, luck.spare);
            && st1.entries == st.entries && st1.closing == st.closing
            && On(st, c, key, cb, luck).entries == Subscribe(st1, p, key, cb, luck).entries
            && On(st, c, key, cb, luck).infos == Subscribe(st1, p, key, cb, luck).infos
            && OnCode(st, c, key, luck) == SubscribeCode(st1, p, key, luck)
  {
    var p := PairOf(st, c, key, luck.spare);
    ReleaseEffect(Subscribe(Get(st, key, true, luck.spare), p, key, cb, luck), p.s);
  }

  /** The entry waits for its verdict, and has not been withdrawn. */
  predicate Waits(st: State, p: Pair) { p in st.entries && st.entries[p] == Entry(true, false) }

  predicate IsPending(st: State, p: Pair) { p in st.entries && st.entries[p].pending }

  /** What a request that finds an entry, or finds its client closing, does and says. */
  lemma OnAgain(st: State, c: ClientId, key: Key, cb: CallbackId, luck: Luck)
    requires c in st.closing || PairOf(st, c, key, luck.spare) in st.entries
    ensures var p := PairOf(st, c, key, luck.spare);
            var r, code := On(st, c, key, cb, luck), OnCode(st, c, key, luck);
            && OthersStay(st, r, p)
            && (c in st.closing ==> r.entries == st.entries && code == Some(CalmDown))
            && (c !in st.closing && IsPending(st, p) ==> Waits(r, p) && code == Some(AcceptedLater))
            && (c !in st.closing && !IsPending(st, p) ==> IsActive(r, p) && code == Some(Ok))
  {
    var p := PairOf(st, c, key, luck.spare);
    OnIsSubscribe(st, c, key, cb, luck);
    AddDoes(Get(st, key, true, luck.spare), p, luck.fair);
  }

  /** What a new request does and says that no handler, or a favourable one, settles at once. */
  lemma OnAnew(st: State, c: ClientId, key: Key, cb: CallbackId, luck: Luck)
    requires c !in st.closing && PairOf(st, c, key, luck.spare) !in st.entries
    requires key.ev.hasOn ==> luck.status.StatusOk?
    ensures var p := PairOf(st, c, key, luck.spare);
            var r, code := On(st, c, key, cb, luck), OnCode(st, c, key, luck);
            if luck.fair && luck.listed then IsActive(r, p) && code == Some(Ok) else p !in r.entries && code == Some(CalmDown)
  {
    var p := PairOf(st, c, key, luck.spare);
    var st1 := Get(st, key, true, luck.spare);
    OnIsSubscribe(st, c, key, cb, luck);
    AddDoes(st1, p, luck.fair);
    if luck.fair {
      VerdictDoes(Add(st1, p, luck.fair), true, p, luck.listed);
    }
  }

  /** What a new request does and says whose verdict the handler puts off. */
  lemma OnPutOff(st: State, c: ClientId, key: Key, cb: CallbackId, luck: Luck)
    requires c !in st.closing && PairOf(st, c, key, luck.spare) !in st.entries
    requires key.ev.hasOn && luck.status.StatusHandled?
    ensures var p := PairOf(st, c, key, luck.spare);
            var r, code := On(st, c, key, cb, luck), OnCode(st, c, key, luck);
            if luck.fair then Waits(r, p) && code == None && luck.ticket in r.infos && r.infos[luck.ticket] == Info(p, cb)
            else p !in r.entries && code == Some(CalmDown)
  {
    var p := PairOf(st, c, key, luck.spare);
    OnIsSubscribe(st, c, key, cb, luck);
    AddDoes(Get(st, key, true, luck.spare), p, luck.fair);
  }

  /** What a new request does and says that the handler of its event turns down. */
  lemma OnRefused(st: State, c: ClientId, key: Key, cb: CallbackId, luck: Luck)
    requires Inv(st, {}) && luck.spare !in st.subs
    requires c !in st.closing && PairOf(st, c, key, luck.spare) !in st.entries
    requires key.ev.hasOn && luck.status.StatusErr?
    ensures PairOf(st, c, key, luck.spare) !in On(st, c, key, cb, luck).entries
    ensures OnCode(st, c, key, luck)
         == Some(if !luck.fair then CalmDown else if key.ev.children then NotFound else Unauthorized)
  {
    var p := PairOf(st, c, key, luck.spare);
    var st1 := Get(st, key, true, luck.spare);
    OnIsSubscribe(st, c, key, cb, luck);
    GetKeeps(st, key, true, luck.spare, {});
    AddDoes(st1, p, luck.fair);
    if luck.fair {
      assert SubAt(Add(st1, p, luck.fair), p.s).key == key;
      VerdictDoes(Add(st1, p, luck.fair), false, p, luck.listed);
    }
  }

  /** A client that asks and is told `Ok` is active afterwards, and one that is told anything else is
      not, unless it was so before and is closing. */
  lemma OkMeansActive(st: State, c: ClientId, key: Key, cb: CallbackId, luck: Luck)
    requires Inv(st, {}) && luck.spare !in st.subs && c !in st.closing
    ensures OnCode(st, c, key, luck) == Some(Ok) <==> IsActive(On(st, c, key, cb, luck), PairOf(st, c, key, luck.spare))
  {
    if PairOf(st, c, key, luck.spare) in st.entries {
      OnAgain(st, c, key, cb, luck);
    } else if !key.ev.hasOn || luck.status.StatusOk? {
      OnAnew(st, c, key, cb, luck);
    } else if luck.status.StatusErr? {
      OnRefused(st, c, key, cb, luck);
    } else {
      OnPutOff(st, c, key, cb, luck);
    }
  }

  /** A verdict that comes late: the client is active afterwards exactly if it is favourable, the
      entry is still there and has not been withdrawn, and the list has room. It is told `Ok` if so;
      or if it has withdrawn, and so does not care. */
  lemma LateVerdict(st: State, ticket: nat, success: bool, listed: bool)
    requires ticket in st.infos
    ensures var p := st.infos[ticket].p;
            var r, code := Decide(st, ticket, success, listed), VerdictCode(TakeInfo(st, ticket), success, p, listed);
            && OthersStay(st, r, p)
            && (IsActive(r, p) <==> success && listed && p in st.entries && !st.entries[p].tombstone)
            && (!IsActive(r, p) ==> p !in r.entries)
            && (success ==> code == if p in st.entries && listed then Ok else CalmDown)
            && (code == Ok && p in st.entries && !st.entries[p].tombstone ==> IsActive(r, p))
  {
    var p := st.infos[ticket].p;
    var st1 := TakeInfo(st, ticket);
    VerdictDoes(st1, success, p, listed);
    ReleaseEffect(Verdict(st1, success, p, listed), p.s);
    assert !success ==> VerdictCode(st1, success, p, listed) != Ok;
  }

  /** A verdict that comes late and is not favourable. */
  lemma LateRefusal(st: State, ticket: nat, listed: bool)
    requires Inv(st, {}) && ticket in st.infos
    ensures var s := st.infos[ticket].p.s;
            && s in st.subs
            && VerdictCode(TakeInfo(st, ticket), false, st.infos[ticket].p, listed)
               == if st.subs[s].key.ev.children then NotFound else Unauthorized
  {
    var s := st.infos[ticket].p.s;
    assert SubOk(st, s);
    assert ticket in InfosOn(st, s);
  }

  /** Giving up: a request that waits is withdrawn, an active entry goes. */
  lemma OffDoes(st: State, c: ClientId, key: Key)
    requires key in st.table
    ensures var p := Pair(c, st.table[key]);
            var r := Off(st, c, key);
            && OthersStay(st, r, p)
            && (p in st.entries && st.entries[p].pending ==> p in r.entries && r.entries[p] == Entry(true, true))
            && (p !in st.entries || !st.entries[p].pending ==> p !in r.entries)
  {
    var s := st.table[key];
    var st1 := Get(st, key, false, s);
    RemoveDoes(st1, Pair(c, s));
    ReleaseEffect(Remove(st1, Pair(c, s)), s);
  }

  // ----- the codes of replies -----

  /** The numbers that clients see. */
  function Number(code: Code): nat {
    match code
    case Ok => 200
    case AcceptedLater => 202
    case Bad => 400
    case Unauthorized => 401
    case NotFound => 404
    case CalmDown => 420
    case Unknown => 500
  }

  function Numbers(codes: seq<Code>): seq<nat> { seq(|codes|, i requires 0 <= i < |codes| => Number(codes[i])) }

  /** What is replied to an event, but for those that the application or a subscription settles. */
  lemma RepliedNumbers(st: State, c: ClientId, r: Request)
    ensures var n := Numbers(Replies(Handle(st, c, r), r));
            match r
            case Nowhere => n == [404]
            case Bare => n == [500]
            case App(o) =>
              n == Numbers(o.replies) + (match o.status case StatusOk => [200] case StatusErr => [500] case StatusHandled => [])
            case OnRequest(BadJson, _) => n == [400]
            case OnRequest(NoEvent, _) => n == [404]
            case OnRequest(Target(key), luck) =>
              n == (match OnCode(st, c, key, luck) case Some(code) => [Number(code)] case None => [])
            case OffRequest(BadJson) => n == [400]
            case OffRequest(NoEvent) => n == [404]
            case OffRequest(Target(_)) => n == [200]
            case CallbackRequest(valid, found, o) => (!valid ==> n == [400]) && (valid && !found ==> n == [404])
            case Hostname => n == [200]
            case Ping => n == [200]
  {
  }
}
