/**
 Routing an event and answering it: whoever asks with a callback id gets exactly one reply.
 */
module EventReplies {
  import opened SubscriptionModel
  import opened SubscriptionInvariants

  /** A client waiting for the reply with this id. */
  datatype Ask = Ask(c: ClientId, cb: CallbackId)

  /** What a handler returned, the replies it sent itself, and whether it will send one
      later on. */
  datatype Outcome = Outcome(status: Status, replies: seq<Code>, later: bool)

  /** The contract of a handler: either the router answers, or the handler has answered
      once, or it will. */
  predicate Honest(o: Outcome) {
    if o.status.StatusHandled? then |o.replies| == (if o.later then 0 else 1)
    else o.replies == [] && !o.later
  }

  // ----- the handlers -----

  /** What the JSON of a subscription request led to. */
  datatype Target = BadJson | NoEvent | Target(key: Key)

  /** What an incoming event is for. */
  datatype Request =
    | Nowhere
    | Bare
    | App(o: Outcome)
    | OnRequest(target: Target, luck: Luck)
    | OffRequest(target: Target)
    | CallbackRequest(valid: bool, found: bool, o: Outcome)
    | Hostname
    | Ping

  function HandleOn(st: State, c: ClientId, target: Target, luck: Luck): Outcome {
    match target
    case BadJson => Outcome(StatusHandled, [Bad], false)
    case NoEvent => Outcome(StatusHandled, [NotFound], false)
    case Target(key) =>
      match OnCode(st, c, key, luck)
      case Some(code) => Outcome(StatusHandled, [code], false)
      case None => Outcome(StatusHandled, [], true)
  }

  function HandleOff(target: Target): Outcome {
    match target
    case BadJson => Outcome(StatusHandled, [Bad], false)
    case NoEvent => Outcome(StatusHandled, [NotFound], false)
    case Target(_) => Outcome(StatusOk, [], false)
  }

  function HandleCallback(valid: bool, found: bool, o: Outcome): Outcome {
    if !valid then Outcome(StatusHandled, [Bad], false)
    else if !found then Outcome(StatusHandled, [NotFound], false)
    else o
  }

  function Handle(st: State, c: ClientId, r: Request): Outcome {
    match r
    case Nowhere | Bare => Outcome(StatusErr, [], false)
    case App(o) => o
    case OnRequest(target, luck) => HandleOn(st, c, target, luck)
    case OffRequest(target) => HandleOff(target)
    case CallbackRequest(valid, found, o) => HandleCallback(valid, found, o)
    case Hostname => Outcome(StatusHandled, [Ok], false)
    case Ping => Outcome(StatusOk, [], false)
  }

  /** The application keeps to the contract where it is asked. */
  predicate AppHonest(r: Request) {
    match r
    case App(o) => Honest(o)
    case CallbackRequest(_, _, o) => Honest(o)
    case _ => true
  }

  /** All replies to an event: those of the handler, then that of the router. */
  function Replies(o: Outcome, r: Request): seq<Code> {
    o.replies + match o.status
                case StatusOk => [Ok]
                case StatusErr => [if r.Nowhere? then NotFound else Unknown]
                case StatusHandled => []
  }

  function Effect(st: State, c: ClientId, cb: CallbackId, r: Request): State {
    match r
    case OnRequest(Target(key), luck) => On(st, c, key, cb, luck)
    case OffRequest(Target(key)) => Off(st, c, key)
    case _ => st
  }

  lemma HandlersAreHonest(st: State, c: ClientId, r: Request)
    requires AppHonest(r)
    ensures Honest(Handle(st, c, r))
    ensures |Replies(Handle(st, c, r), r)| + (if Handle(st, c, r).later then 1 else 0) == 1
  {
  }

  // ----- the server as a whole -----

  /** `asked` and `replied` count events routed and replies sent; `owed` counts the replies
      that application handlers have promised. */
  datatype World = World(st: State, asked: multiset<Ask>, replied: multiset<Ask>, owed: multiset<Ask>)

  datatype Step =
    | Route(c: ClientId, cb: CallbackId, r: Request)
    | DecideStep(ticket: nat, success: bool, listed: bool)
    | AppReply(a: Ask)
    | CloseRequest(c: ClientId)
    | CloseHandler(c: ClientId, order: seq<Pair>)
    | Broadcast(key: Key)
    | BroadcastDone(s: SubId)

  /** `order` lists the entries of `c`, each once. */
  ghost predicate Lists(st: State, c: ClientId, order: seq<Pair>) {
    && (forall p :: p in order <==> p in PairsOf(st, c))
    && (forall i, j :: 0 <= i < j < |order| ==> order[i] != order[j])
  }

  ghost predicate Enabled(w: World, step: Step) {
    match step
    case Route(c, cb, r) =>
      && AppHonest(r)
      && (r.OnRequest? ==> r.luck.spare !in w.st.subs && r.luck.ticket !in w.st.infos)
    case DecideStep(ticket, _, _) => ticket in w.st.infos
    case AppReply(a) => a in w.owed
    case CloseRequest(_) => true
    case CloseHandler(c, order) => c in w.st.closing && c !in w.st.closed && Lists(w.st, c, order)
    case Broadcast(_) => true
    case BroadcastDone(s) => s in w.st.loose
  }

  /** A reply to an event without callback id is not sent. */
  function Sent(a: Ask, n: nat): multiset<Ask> { if a.cb == 0 then multiset{} else multiset{}[a := n] }

  function RouteStep(w: World, c: ClientId, cb: CallbackId, r: Request): World {
    var o := Handle(w.st, c, r);
    var a := Ask(c, cb);
    World(Effect(w.st, c, cb, r), w.asked + multiset{a}, w.replied + Sent(a, |Replies(o, r)|),
          if o.later && !r.OnRequest? then w.owed + multiset{a} else w.owed)
  }

  function CleanupAll(st: State, order: seq<Pair>): State
    decreases |order|
  {
    if order == [] then st else CleanupAll(Cleanup(st, order[0]), order[1..])
  }

  function DecideWorld(w: World, ticket: nat, success: bool, listed: bool): World
    requires ticket in w.st.infos
  {
    var info := w.st.infos[ticket];
    w.(st := Decide(w.st, ticket, success, listed), replied := w.replied + Sent(Ask(info.p.c, info.cb), 1))
  }

  function Closed(st: State, c: ClientId, order: seq<Pair>): State {
    var st1 := CleanupAll(st, order);
    st1.(closed := st1.closed + {c})
  }

  ghost function Apply(w: World, step: Step): World
    requires Enabled(w, step)
  {
    match step
    case Route(c, cb, r) => RouteStep(w, c, cb, r)
    case DecideStep(ticket, success, listed) => DecideWorld(w, ticket, success, listed)
    case AppReply(a) => w.(replied := w.replied + Sent(a, 1), owed := w.owed - multiset{a})
    case CloseRequest(c) => w.(st := w.st.(closing := w.st.closing + {c}))
    case CloseHandler(c, order) => w.(st := Closed(w.st, c, order))
    case Broadcast(key) => w.(st := Get(w.st, key, false, 0))
    case BroadcastDone(s) => w.(st := Release(w.st, s))
  }

  // ----- subscriptions over all runs -----

  lemma ClosingKeeps(st: State, c: ClientId)
    requires Inv(st, {})
    ensures Inv(st.(closing := st.closing + {c}), {})
  {
    var r := st.(closing := st.closing + {c});
    forall x: SubId ensures SubOk(r, x) { assert SubOk(st, x); SameCounts(st, r, x); if x in st.subs { assert MembersOk(st, x); } }
    forall k: Key ensures KeyOk(r, k) { assert KeyOk(st, k); }
    forall q: Pair ensures PairOk(r, q, {}) { assert PairOk(st, q, {}); }
  }

  /** Dropping a reference changes neither entries nor clients. */
  lemma ReleaseEffect(st: State, s: SubId)
    ensures var r := Release(st, s);
            && r.entries == st.entries && r.infos == st.infos && r.loose == st.loose - multiset{s}
            && r.closing == st.closing && r.closed == st.closed
  {
  }

  lemma CleanupEffect(st: State, p: Pair)
    ensures var r := Cleanup(st, p);
            && r.entries == st.entries - {p} && r.infos == st.infos && r.loose == st.loose
            && r.closing == st.closing && r.closed == st.closed
  {
    ReleaseEffect(Detached(st, p), p.s);
  }

  lemma {:induction false} CleanupAllKeeps(st: State, c: ClientId, order: seq<Pair>)
    requires Inv(st, {}) && c in st.closing && Lists(st, c, order)
    ensures Inv(CleanupAll(st, order), {}) && PairsOf(CleanupAll(st, order), c) == {}
    ensures CleanupAll(st, order).closing == st.closing && CleanupAll(st, order).closed == st.closed
    ensures CleanupAll(st, order).infos == st.infos
    decreases |order|
  {
    if order == [] {
      assert forall p :: p !in PairsOf(st, c);
    } else {
      var p := order[0];
      assert p in PairsOf(st, c);
      assert {} - {p} == {};
      CleanupKeeps(st, p, {});
      CleanupEffect(st, p);
      var st1 := Cleanup(st, p);
      forall q ensures q in order[1..] <==> q in PairsOf(st1, c) {
        assert q in order <==> q in PairsOf(st, c);
        if q in order && q != p { var i :| 0 <= i < |order| && order[i] == q; assert order[1..][i - 1] == q; }
      }
      CleanupAllKeeps(st1, c, order[1..]);
    }
  }

  lemma ClosedKeeps(st: State, c: ClientId, order: seq<Pair>)
    requires Inv(st, {}) && c in st.closing && Lists(st, c, order)
    ensures Inv(Closed(st, c, order), {})
  {
    CleanupAllKeeps(st, c, order);
    var st1 := CleanupAll(st, order);
    var r := st1.(closed := st1.closed + {c});
    forall x: SubId ensures SubOk(r, x) { assert SubOk(st1, x); SameCounts(st1, r, x); if x in st1.subs { assert MembersOk(st1, x); } }
    forall k: Key ensures KeyOk(r, k) { assert KeyOk(st1, k); }
    forall q: Pair ensures PairOk(r, q, {}) {
      assert PairOk(st1, q, {});
      assert q.c == c ==> q !in PairsOf(st1, c);
    }
  }

  lemma GetExisting(st: State, key: Key)
    requires Inv(st, {})
    ensures Inv(Get(st, key, false, 0), {})
  {
    assert KeyOk(st, key);
    if key in st.table { HoldKeeps(st, st.table[key], {}); }
  }

  lemma SubscriptionsKept(w: World, step: Step)
    requires Inv(w.st, {}) && Enabled(w, step)
    ensures Inv(Apply(w, step).st, {})
  {
    match step
    case Route(c, cb, r) =>
      match r {
        case OnRequest(Target(key), luck) => OnKeeps(w.st, c, key, cb, luck);
        case OffRequest(Target(key)) => OffKeeps(w.st, c, key);
        case _ =>
      }
    case DecideStep(ticket, success, listed) => DecideKeeps(w.st, ticket, success, listed);
    case AppReply(a) =>
    case CloseRequest(c) => ClosingKeeps(w.st, c);
    case CloseHandler(c, order) => ClosedKeeps(w.st, c, order);
    case Broadcast(key) => GetExisting(w.st, key);
    case BroadcastDone(s) => ReleaseKeeps(w.st, s, {});
  }

  // ----- replies over all runs -----

  ghost function WaitingFor(st: State, a: Ask): set<nat> {
    set i | i in st.infos && Ask(st.infos[i].p.c, st.infos[i].cb) == a
  }

  /** Each event that asks for a reply has got it, or a postponed verdict or a handler's
      promise stands for it. */
  ghost predicate LedgerOk(w: World, a: Ask) {
    a.cb != 0 ==> w.asked[a] == w.replied[a] + |WaitingFor(w.st, a)| + w.owed[a]
  }

  lemma VerdictEffect(st: State, success: bool, p: Pair, listed: bool)
    ensures Verdict(st, success, p, listed).infos == st.infos
  {
    CleanupEffect(st, p);
  }

  /** Only a request whose verdict is put off leaves something behind. */
  lemma OnEffect(st: State, c: ClientId, key: Key, cb: CallbackId, luck: Luck)
    ensures var s := Got(st, key, true, luck.spare).value;
            On(st, c, key, cb, luck).infos
            == if OnCode(st, c, key, luck).None? then st.infos[luck.ticket := Info(Pair(c, s), cb)] else st.infos
  {
    var s := Got(st, key, true, luck.spare).value;
    var st1 := Get(st, key, true, luck.spare);
    var p := Pair(c, s);
    SubscribeEffect(st1, p, key, cb, luck);
    ReleaseEffect(Subscribe(st1, p, key, cb, luck), s);
  }

  lemma SubscribeEffect(st: State, p: Pair, key: Key, cb: CallbackId, luck: Luck)
    ensures Subscribe(st, p, key, cb, luck).infos
            == if SubscribeCode(st, p, key, luck).None? then st.infos[luck.ticket := Info(p, cb)] else st.infos
  {
    var st1 := Add(st, p, luck.fair);
    assert st1.infos == st.infos;
    if AddVerdict(st, p, luck.fair).Created? {
      match OnStatus(key, luck)
      case StatusOk => VerdictEffect(st1, true, p, luck.listed);
      case StatusErr => VerdictEffect(st1, false, p, luck.listed);
      case StatusHandled =>
    }
  }

  lemma OffEffect(st: State, c: ClientId, key: Key)
    ensures Off(st, c, key).infos == st.infos
  {
    if key in st.table {
      var s := st.table[key];
      var st1 := Get(st, key, false, s);
      CleanupEffect(st1, Pair(c, s));
      ReleaseEffect(Remove(st1, Pair(c, s)), s);
    }
  }

  lemma RouteCounts(w: World, c: ClientId, cb: CallbackId, r: Request, a: Ask)
    requires AppHonest(r) && a.cb != 0
    ensures var w1 := RouteStep(w, c, cb, r);
            var o := Handle(w.st, c, r);
            w1.asked[a] + w.replied[a] + w.owed[a]
            == w.asked[a] + w1.replied[a] + w1.owed[a] + if a == Ask(c, cb) && o.later && r.OnRequest? then 1 else 0
  {
    HandlersAreHonest(w.st, c, r);
  }

  lemma OneMoreWaits(st: State, r: State, ticket: nat, info: Info, a: Ask)
    requires ticket !in st.infos && r.infos == st.infos[ticket := info]
    ensures |WaitingFor(r, a)| == |WaitingFor(st, a)| + if Ask(info.p.c, info.cb) == a then 1 else 0
  {
    assert WaitingFor(r, a) == WaitingFor(st, a) + if Ask(info.p.c, info.cb) == a then {ticket} else {};
    assert ticket !in WaitingFor(st, a);
  }

  lemma SameWait(st: State, r: State, a: Ask)
    requires r.infos == st.infos
    ensures WaitingFor(r, a) == WaitingFor(st, a)
  {
  }

  lemma OnWaiting(st: State, c: ClientId, key: Key, cb: CallbackId, luck: Luck, a: Ask)
    requires luck.ticket !in st.infos
    ensures |WaitingFor(On(st, c, key, cb, luck), a)|
            == |WaitingFor(st, a)| + if a == Ask(c, cb) && OnCode(st, c, key, luck).None? then 1 else 0
  {
    OnEffect(st, c, key, cb, luck);
    if OnCode(st, c, key, luck).None? {
      OneMoreWaits(st, On(st, c, key, cb, luck), luck.ticket, Info(Pair(c, Got(st, key, true, luck.spare).value), cb), a);
    } else {
      SameWait(st, On(st, c, key, cb, luck), a);
    }
  }

  lemma RouteWaiting(w: World, c: ClientId, cb: CallbackId, r: Request, a: Ask)
    requires Enabled(w, Route(c, cb, r))
    ensures |WaitingFor(Effect(w.st, c, cb, r), a)|
            == |WaitingFor(w.st, a)| + if a == Ask(c, cb) && r.OnRequest? && Handle(w.st, c, r).later then 1 else 0
  {
    match r
    case OnRequest(Target(key), luck) => OnWaiting(w.st, c, key, cb, luck, a);
    case OffRequest(Target(key)) =>
      OffEffect(w.st, c, key);
      SameWait(w.st, Effect(w.st, c, cb, r), a);
    case _ =>
  }

  lemma RouteLedger(w: World, c: ClientId, cb: CallbackId, r: Request, a: Ask)
    requires Enabled(w, Route(c, cb, r)) && LedgerOk(w, a)
    ensures LedgerOk(RouteStep(w, c, cb, r), a)
  {
    if a.cb != 0 {
      RouteCounts(w, c, cb, r, a);
      RouteWaiting(w, c, cb, r, a);
    }
  }

  lemma DecideLedger(w: World, ticket: nat, success: bool, listed: bool, a: Ask)
    requires ticket in w.st.infos && LedgerOk(w, a)
    ensures LedgerOk(DecideWorld(w, ticket, success, listed), a)
  {
    var w1 := DecideWorld(w, ticket, success, listed);
    var info := w.st.infos[ticket];
    var st1 := TakeInfo(w.st, ticket);
    VerdictEffect(st1, success, info.p, listed);
    ReleaseEffect(Verdict(st1, success, info.p, listed), info.p.s);
    assert WaitingFor(w1.st, a) == WaitingFor(w.st, a) - {ticket};
    assert Ask(info.p.c, info.cb) == a <==> ticket in WaitingFor(w.st, a);
  }

  lemma LedgerKept(w: World, step: Step, a: Ask)
    requires Inv(w.st, {}) && Enabled(w, step) && LedgerOk(w, a)
    ensures LedgerOk(Apply(w, step), a)
  {
    var r := Apply(w, step);
    match step
    case Route(c, cb, q) => RouteLedger(w, c, cb, q, a);
    case DecideStep(ticket, success, listed) => DecideLedger(w, ticket, success, listed, a);
    case AppReply(b) => assert WaitingFor(r.st, a) == WaitingFor(w.st, a);
    case CloseRequest(c) => assert WaitingFor(r.st, a) == WaitingFor(w.st, a);
    case CloseHandler(c, order) =>
      CleanupAllKeeps(w.st, c, order);
      assert WaitingFor(r.st, a) == WaitingFor(w.st, a);
    case Broadcast(key) => assert WaitingFor(r.st, a) == WaitingFor(w.st, a);
    case BroadcastDone(s) =>
      ReleaseEffect(w.st, s);
      assert WaitingFor(r.st, a) == WaitingFor(w.st, a);
  }

  ghost predicate IsRun(ws: seq<World>, steps: seq<Step>) {
    && |ws| == |steps| + 1 && ws[0] == World(Init(), multiset{}, multiset{}, multiset{})
    && forall i {:trigger steps[i]} :: 0 <= i < |steps| ==> Enabled(ws[i], steps[i]) && ws[i + 1] == Apply(ws[i], steps[i])
  }

  lemma {:induction false} RunKeeps(ws: seq<World>, steps: seq<Step>, k: nat)
    requires IsRun(ws, steps) && k < |ws|
    ensures Inv(ws[k].st, {})
  {
    if k == 0 {
      InitInv();
    } else {
      RunKeeps(ws, steps, k - 1);
      SubscriptionsKept(ws[k - 1], steps[k - 1]);
    }
  }

  /** Every event with a callback id gets exactly one reply: at any time replies sent,
      verdicts postponed and replies promised by handlers add up to the events routed. */
  lemma {:induction false} ExactlyOneReply(ws: seq<World>, steps: seq<Step>, k: nat, a: Ask)
    requires IsRun(ws, steps) && k < |ws| && a.cb != 0
    ensures ws[k].asked[a] == ws[k].replied[a] + |WaitingFor(ws[k].st, a)| + ws[k].owed[a]
    ensures WaitingFor(ws[k].st, a) == {} && a !in ws[k].owed ==> ws[k].replied[a] == ws[k].asked[a]
  {
    if k > 0 {
      ExactlyOneReply(ws, steps, k - 1, a);
      RunKeeps(ws, steps, k - 1);
      assert Enabled(ws[k - 1], steps[k - 1]);
      LedgerKept(ws[k - 1], steps[k - 1], a);
    }
  }

  /** A client is among the subscribers of a subscription just when it has an entry that is
      not pending, which is just when sending to it is allowed; a tombstone is only found on
      pending entries; and off-calls are the entries that were created and are gone. */
  lemma MembershipAgrees(ws: seq<World>, steps: seq<Step>, k: nat, p: Pair)
    requires IsRun(ws, steps) && k < |ws|
    ensures var st := ws[k].st;
            && (p in st.entries && st.entries[p].tombstone ==> st.entries[p].pending)
            && (p.s in st.subs && p.c in st.subs[p.s].members <==> p in st.entries && !st.entries[p].pending)
            && (p.s in st.subs && p.c in st.subs[p.s].members <==> IsActive(st, p))
            && st.offs[p] + (if p in st.entries then 1 else 0) == st.created[p]
            && (p.c in st.closed ==> p !in st.entries)
  {
    RunKeeps(ws, steps, k);
    var st := ws[k].st;
    assert PairOk(st, p, {});
    assert SubOk(st, p.s);
    if p in st.entries { assert p in EntriesOn(st, p.s); }
    if p.s in st.subs { assert MembersOk(st, p.s); }
  }

  /** References on a subscription are its entries, the postponed requests for it and the
      handles held elsewhere; it lives in the table exactly while there are any, and the
      fair pool is used once per entry. */
  lemma ReferencesAgree(ws: seq<World>, steps: seq<Step>, k: nat, s: SubId)
    requires IsRun(ws, steps) && k < |ws|
    ensures var st := ws[k].st;
            var refs := |EntriesOn(st, s)| + |InfosOn(st, s)| + st.loose[s];
            && (s in st.subs <==> refs > 0)
            && (s in st.subs ==> st.subs[s].refs == refs && st.subs[s].key in st.table && st.table[st.subs[s].key] == s)
            && st.used == |st.entries|
  {
    RunKeeps(ws, steps, k);
    assert SubOk(ws[k].st, s);
  }
}
