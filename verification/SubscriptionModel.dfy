/**
 Subscriptions of clients, on values: who is subscribed to what, in which state, and who
 holds a reference on which subscription.  Every operation runs under the lock of its
 client, so each is one step; `SubAtomic` justifies taking the table operations whole.
 */
module SubscriptionModel {
  import opened Options

  type ClientId = int
  type SubId = int
  type CallbackId = nat

  /** An event of the server: whether it takes child paths, and whether it has an on-handler. */
  datatype Event = Event(id: nat, children: bool, hasOn: bool)

  datatype Key = Key(ev: Event, extra: string)

  /** `members` is the list of subscribers that broadcasts go to. */
  datatype Sub = Sub(key: Key, refs: nat, members: set<ClientId>)

  datatype Pair = Pair(c: ClientId, s: SubId)

  /** A client's entry for a subscription: waiting for the verdict of the on-handler, and
      perhaps already given up by the client. */
  datatype Entry = Entry(pending: bool, tombstone: bool)

  /** A subscription request whose verdict was put off; it holds a reference. */
  datatype Info = Info(p: Pair, cb: CallbackId)

  /** `loose` counts the references held outside entries and postponed requests; `used` is
      the fair pool; `created` and `offs` count created entries and off-calls. */
  datatype State = State(
    subs: map<SubId, Sub>, table: map<Key, SubId>, entries: map<Pair, Entry>,
    infos: map<nat, Info>, loose: multiset<SubId>, closing: set<ClientId>, closed: set<ClientId>,
    used: int, created: multiset<Pair>, offs: multiset<Pair>)

  function Init(): State {
    State(map[], map[], map[], map[], multiset{}, {}, {}, 0, multiset{}, multiset{})
  }

  // ----- references -----

  function SubAt(st: State, s: SubId): Sub {
    if s in st.subs then st.subs[s] else Sub(Key(Event(0, false, false), ""), 0, {})
  }

  function Ref(st: State, s: SubId): State {
    var sub := SubAt(st, s);
    st.(subs := st.subs[s := sub.(refs := sub.refs + 1)])
  }

  /** Dropping the last reference takes the subscription out of the table and frees it. */
  function Unref(st: State, s: SubId): State {
    var sub := SubAt(st, s);
    if sub.refs > 1 then st.(subs := st.subs[s := sub.(refs := sub.refs - 1)])
    else if sub.key in st.table && st.table[sub.key] == s then st.(subs := st.subs - {s}, table := st.table - {sub.key})
    else st.(subs := st.subs - {s})
  }

  function Hold(st: State, s: SubId): State { Ref(st, s).(loose := st.loose + multiset{s}) }

  function Release(st: State, s: SubId): State { Unref(st, s).(loose := st.loose - multiset{s}) }

  /** `spare` is the memory a new subscription would get. */
  function Get(st: State, key: Key, create: bool, spare: SubId): State {
    if key in st.table then Hold(st, st.table[key])
    else if create then
      st.(subs := st.subs[spare := Sub(key, 1, {})], table := st.table[key := spare], loose := st.loose + multiset{spare})
    else st
  }

  function Got(st: State, key: Key, create: bool, spare: SubId): Option<SubId> {
    if key in st.table then Some(st.table[key]) else if create then Some(spare) else None
  }

  // ----- entries -----

  /** An entry goes, and with it the membership and the share of the pool; its reference is
      left to the running operation. */
  function Detached(st: State, p: Pair): State {
    var sub := SubAt(st, p.s);
    st.(subs := st.subs[p.s := sub.(members := sub.members - {p.c})],
        entries := st.entries - {p}, used := st.used - 1, offs := st.offs + multiset{p},
        loose := st.loose + multiset{p.s})
  }

  function Cleanup(st: State, p: Pair): State { Release(Detached(st, p), p.s) }

  datatype AddResult = Pending | Active | Created | Refused

  function AddVerdict(st: State, p: Pair, fair: bool): AddResult {
    if p.c in st.closing then Refused
    else if p in st.entries then if st.entries[p].pending then Pending else Active
    else if fair then Created
    else Refused
  }

  function Add(st: State, p: Pair, fair: bool): State {
    match AddVerdict(st, p, fair)
    case Refused => st
    case Pending | Active => st.(entries := st.entries[p := st.entries[p].(tombstone := false)])
    case Created =>
      Ref(st, p.s).(entries := st.entries[p := Entry(true, false)], used := st.used + 1, created := st.created + multiset{p})
  }

  datatype AcceptResult = Accepted | Tombstoned | Failed

  function AcceptVerdict(st: State, p: Pair, listed: bool): AcceptResult {
    if p !in st.entries || !listed then Failed
    else if st.entries[p].tombstone then Tombstoned
    else Accepted
  }

  /** `listed` tells whether the subscriber list had room. */
  function Accept(st: State, p: Pair, listed: bool): State {
    if p !in st.entries then st
    else if AcceptVerdict(st, p, listed).Accepted? then
      var sub := SubAt(st, p.s);
      st.(subs := st.subs[p.s := sub.(members := sub.members + {p.c})], entries := st.entries[p := Entry(false, false)])
    else Cleanup(st, p)
  }

  function Reject(st: State, p: Pair): State { if p in st.entries then Cleanup(st, p) else st }

  /** A client gives up a subscription; while the verdict is out it is only marked. */
  function Remove(st: State, p: Pair): State {
    if p !in st.entries then st
    else if st.entries[p].pending then st.(entries := st.entries[p := st.entries[p].(tombstone := true)])
    else Cleanup(st, p)
  }

  /** The client takes part in the list of subscribers and gets what is sent to it. */
  predicate IsActive(st: State, p: Pair) {
    p in st.entries && !st.entries[p].pending && !st.entries[p].tombstone
  }

  // ----- events -----

  datatype Code = Ok | AcceptedLater | Bad | Unauthorized | NotFound | CalmDown | Unknown

  datatype Status = StatusOk | StatusErr | StatusHandled

  function Verdict(st: State, success: bool, p: Pair, listed: bool): State {
    if success then Accept(st, p, listed) else Reject(st, p)
  }

  function VerdictCode(st: State, success: bool, p: Pair, listed: bool): Code {
    if success then if AcceptVerdict(st, p, listed).Failed? then CalmDown else Ok
    else if SubAt(st, p.s).key.ev.children then NotFound
    else Unauthorized
  }

  /** What the environment decides during a subscription request. */
  datatype Luck = Luck(spare: SubId, fair: bool, status: Status, listed: bool, ticket: nat)

  function OnStatus(key: Key, luck: Luck): Status { if key.ev.hasOn then luck.status else StatusOk }

  function Postpone(st: State, p: Pair, cb: CallbackId, ticket: nat): State {
    Ref(st, p.s).(infos := st.infos[ticket := Info(p, cb)])
  }

  /** The request proper, once the subscription is held. */
  function Subscribe(st: State, p: Pair, key: Key, cb: CallbackId, luck: Luck): State {
    var st1 := Add(st, p, luck.fair);
    if !AddVerdict(st, p, luck.fair).Created? then st1
    else match OnStatus(key, luck)
         case StatusOk => Verdict(st1, true, p, luck.listed)
         case StatusErr => Verdict(st1, false, p, luck.listed)
         case StatusHandled => Postpone(st1, p, cb, luck.ticket)
  }

  /** The code of the immediate reply; none if the verdict is put off. */
  function SubscribeCode(st: State, p: Pair, key: Key, luck: Luck): Option<Code> {
    match AddVerdict(st, p, luck.fair)
    case Pending => Some(AcceptedLater)
    case Refused => Some(CalmDown)
    case Active => Some(Ok)
    case Created =>
      var st1 := Add(st, p, luck.fair);
      match OnStatus(key, luck)
      case StatusOk => Some(VerdictCode(st1, true, p, luck.listed))
      case StatusErr => Some(VerdictCode(st1, false, p, luck.listed))
      case StatusHandled => None
  }

  function On(st: State, c: ClientId, key: Key, cb: CallbackId, luck: Luck): State {
    var s := Got(st, key, true, luck.spare).value;
    Release(Subscribe(Get(st, key, true, luck.spare), Pair(c, s), key, cb, luck), s)
  }

  function OnCode(st: State, c: ClientId, key: Key, luck: Luck): Option<Code> {
    var s := Got(st, key, true, luck.spare).value;
    SubscribeCode(Get(st, key, true, luck.spare), Pair(c, s), key, luck)
  }

  /** A postponed request whose verdict has arrived: its reference is the operation's now. */
  function TakeInfo(st: State, ticket: nat): State
    requires ticket in st.infos
  {
    st.(infos := st.infos - {ticket}, loose := st.loose + multiset{st.infos[ticket].p.s})
  }

  function Decide(st: State, ticket: nat, success: bool, listed: bool): State
    requires ticket in st.infos
  {
    var p := st.infos[ticket].p;
    Release(Verdict(TakeInfo(st, ticket), success, p, listed), p.s)
  }

  function Off(st: State, c: ClientId, key: Key): State {
    if key !in st.table then st else
      var s := st.table[key];
      Release(Remove(Get(st, key, false, s), Pair(c, s)), s)
  }

  function PairsOf(st: State, c: ClientId): set<Pair> { set p | p in st.entries && p.c == c }
}
