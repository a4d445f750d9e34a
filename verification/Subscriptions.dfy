/**
 The subscription code as the source has it: tables and counters updated in place, one
 method for each routine, each tied to the operation of `SubscriptionModel` it performs.
 Subscriptions are only ever dereferenced while they are known to be alive.
 */
module Subscriptions {
  import opened Options
  import opened SubscriptionModel
  import opened SubscriptionInvariants
  import opened EventReplies

  class Server {
    var subs: map<SubId, Sub>
    var table: map<Key, SubId>
    var entries: map<Pair, Entry>
    var infos: map<nat, Info>
    var closing: set<ClientId>
    var used: int
    ghost var loose: multiset<SubId>
    ghost var closed: set<ClientId>
    ghost var created: multiset<Pair>
    ghost var offs: multiset<Pair>

    constructor ()
      ensures View() == Init() && Inv(View(), {})
    {
      subs, table, entries, infos, closing, used := map[], map[], map[], map[], {}, 0;
      loose, closed, created, offs := multiset{}, {}, multiset{}, multiset{};
      new;
      InitInv();
    }

    ghost function View(): State
      reads this
    {
      State(subs, table, entries, infos, loose, closing, closed, used, created, offs)
    }

    // ----- sub.c -----

    method SubGet(key: Key, create: bool, spare: SubId) returns (sub: Option<SubId>)
      requires Inv(View(), {}) && spare !in subs
      modifies this
      ensures View() == Get(old(View()), key, create, spare) && sub == Got(old(View()), key, create, spare)
      ensures Inv(View(), {}) && (sub.Some? ==> sub.value in loose && sub.value in subs && subs[sub.value].key == key)
    {
      GetKeeps(View(), key, create, spare, {});
      sub := None;
      if key in table {
        assert KeyOk(View(), key);
        SubRef(table[key]);
        sub := Some(table[key]);
        loose := loose + multiset{table[key]};
      }
      if sub.None? && create {
        subs := subs[spare := Sub(key, 1, {})];
        table := table[key := spare];
        sub := Some(spare);
        loose := loose + multiset{spare};
      }
    }

    method SubRef(s: SubId)
      requires s in subs
      modifies this`subs
      ensures View() == Ref(old(View()), s)
    {
      subs := subs[s := subs[s].(refs := subs[s].refs + 1)];
    }

    /** Gives back a reference that the running operation holds. */
    method SubUnref(s: SubId, ghost open: set<Pair>)
      requires Inv(View(), open) && s in loose
      modifies this`subs, this`table, this`loose
      ensures View() == Release(old(View()), s) && Inv(View(), open)
    {
      assert SubOk(View(), s);
      ReleaseKeeps(View(), s, open);
      var sub := subs[s];
      loose := loose - multiset{s};
      if sub.refs != 1 {
        subs := subs[s := sub.(refs := sub.refs - 1)];
        return;
      }
      if sub.key in table && table[sub.key] == s {
        table := table - {sub.key};
      }
      subs := subs - {s};
    }

    // ----- client.c -----

    method SubCleanup(p: Pair, ghost open: set<Pair>)
      requires Inv(View(), open) && p in entries && (Awaited(View(), p) ==> p.c in closing)
      modifies this
      ensures View() == Cleanup(old(View()), p) && Inv(View(), open - {p})
    {
      ghost var st := View();
      DetachedKeeps(st, p, open);
      assert SubOk(st, p.s);
      assert p in EntriesOn(st, p.s);
      subs := subs[p.s := subs[p.s].(members := subs[p.s].members - {p.c})];
      offs := offs + multiset{p};
      used := used - 1;
      entries := entries - {p};
      loose := loose + multiset{p.s};
      assert View() == Detached(st, p);
      SubUnref(p.s, open - {p});
    }

    /** Marks a pending entry and removes any other; a rejected one goes in any case. */
    method SubRemove(p: Pair, rejected: bool) returns (removed: bool)
      requires Inv(View(), if rejected then {p} else {})
      modifies this
      ensures View() == if rejected then Reject(old(View()), p) else Remove(old(View()), p)
      ensures removed == (p in old(entries) && (rejected || !old(entries)[p].pending))
      ensures Inv(View(), {})
    {
      removed := false;
      assert PairOk(View(), p, if rejected then {p} else {});
      if rejected { RejectKeeps(View(), p); } else { RemoveKeeps(View(), p); }
      if p !in entries {
        return;
      }
      if !rejected && entries[p].pending {
        entries := entries[p := entries[p].(tombstone := true)];
      } else {
        removed := true;
        SubCleanup(p, if rejected then {p} else {});
      }
    }

    method ClientSubAdd(p: Pair, fair: bool) returns (r: AddResult)
      requires Inv(View(), {}) && p.s in subs
      modifies this
      ensures View() == Add(old(View()), p, fair) && r == AddVerdict(old(View()), p, fair)
      ensures Inv(View(), if r.Created? then {p} else {})
    {
      AddKeeps(View(), p, fair);
      if p.c in closing {
        return Refused;
      }
      if p in entries {
        entries := entries[p := entries[p].(tombstone := false)];
        return if entries[p].pending then Pending else Active;
      }
      if !fair {
        return Refused;
      }
      used := used + 1;
      created := created + multiset{p};
      SubRef(p.s);
      entries := entries[p := Entry(true, false)];
      r := Created;
    }

    method ClientSubAccept(p: Pair, listed: bool) returns (r: AcceptResult)
      requires Inv(View(), {p})
      modifies this
      ensures View() == Accept(old(View()), p, listed) && r == AcceptVerdict(old(View()), p, listed)
      ensures Inv(View(), {})
    {
      ghost var st := View();
      AcceptKeeps(st, p, listed);
      assert PairOk(st, p, {p});
      if p !in entries {
        return Failed;
      }
      assert SubOk(st, p.s);
      assert p in EntriesOn(st, p.s);
      if !listed || entries[p].tombstone {
        r := if !listed then Failed else Tombstoned;
        SubCleanup(p, {p});
      } else {
        subs := subs[p.s := subs[p.s].(members := subs[p.s].members + {p.c})];
        entries := entries[p := Entry(false, false)];
        r := Accepted;
      }
    }

    /** A closed client gives up all its entries, pending or not. */
    method ClientClosed(c: ClientId) returns (ghost order: seq<Pair>)
      requires Inv(View(), {}) && c in closing
      modifies this
      ensures Lists(old(View()), c, order) && View() == Closed(old(View()), c, order)
      ensures Inv(View(), {})
    {
      ghost var st := View();
      var todo := set p | p in entries && p.c == c;
      order := [];
      assert todo == PairsOf(View(), c);
      while todo != {}
        invariant todo == PairsOf(View(), c)
        invariant Inv(View(), {}) && closing == st.closing
        invariant View() == CleanupAll(st, order)
        invariant Swept(st, c, todo, order)
        decreases |todo|
      {
        var p :| p in todo;
        ghost var before := View();
        CleanupAllSnoc(st, order, p);
        assert {} - {p} == {};
        SubCleanup(p, {});
        SweptOne(st, before, c, todo, order, p);
        todo := todo - {p};
        order := order + [p];
      }
      ClosedKeeps(st, c, order);
      closed := closed + {c};
    }

    // ----- evs.c -----

    method EvsOnCb(success: bool, p: Pair, listed: bool) returns (code: Code)
      requires Inv(View(), {p}) && p.s in subs
      modifies this
      ensures View() == Verdict(old(View()), success, p, listed) && code == VerdictCode(old(View()), success, p, listed)
      ensures Inv(View(), {})
    {
      code := Ok;
      if success {
        var r := ClientSubAccept(p, listed);
        if r.Failed? {
          code := CalmDown;
        }
      } else {
        code := if subs[p.s].key.ev.children then NotFound else Unauthorized;
        var _ := SubRemove(p, true);
      }
    }

    /** A fresh entry gets its verdict from the on-handler, or the verdict is put off. */
    method AskHandler(p: Pair, key: Key, cb: CallbackId, luck: Luck) returns (code: Option<Code>)
      requires Inv(View(), {p}) && p in entries && p.s in subs && luck.ticket !in infos
      modifies this
      ensures var st := old(View());
              match OnStatus(key, luck)
              case StatusOk => View() == Verdict(st, true, p, luck.listed) && code == Some(VerdictCode(st, true, p, luck.listed))
              case StatusErr => View() == Verdict(st, false, p, luck.listed) && code == Some(VerdictCode(st, false, p, luck.listed))
              case StatusHandled => View() == Postpone(st, p, cb, luck.ticket) && code == None
      ensures Inv(View(), {})
    {
      var status := if key.ev.hasOn then luck.status else StatusOk;
      if status.StatusHandled? {
        PostponeKeeps(View(), p, cb, luck.ticket);
        SubRef(p.s);
        infos := infos[luck.ticket := Info(p, cb)];
        code := None;
      } else {
        var verdict := EvsOnCb(status.StatusOk?, p, luck.listed);
        code := Some(verdict);
      }
    }

    method SubscribeHeld(p: Pair, key: Key, cb: CallbackId, luck: Luck) returns (code: Option<Code>)
      requires Inv(View(), {}) && p.s in loose && p.s in subs && luck.ticket !in infos
      modifies this
      ensures View() == Subscribe(old(View()), p, key, cb, luck) && code == SubscribeCode(old(View()), p, key, luck)
      ensures Inv(View(), {}) && loose == old(loose)
    {
      SubscribeKeeps(View(), p, key, cb, luck);
      var r := ClientSubAdd(p, luck.fair);
      match r {
        case Pending => code := Some(AcceptedLater);
        case Refused => code := Some(CalmDown);
        case Active => code := Some(Ok);
        case Created => code := AskHandler(p, key, cb, luck);
      }
    }

    /** A subscription request: `None` when the application puts the verdict off. */
    method EvsOn(c: ClientId, key: Key, cb: CallbackId, luck: Luck) returns (code: Option<Code>)
      requires Inv(View(), {}) && luck.spare !in subs && luck.ticket !in infos
      modifies this
      ensures View() == On(old(View()), c, key, cb, luck) && code == OnCode(old(View()), c, key, luck)
      ensures Inv(View(), {})
    {
      var sub := SubGet(key, true, luck.spare);
      code := SubscribeHeld(Pair(c, sub.value), key, cb, luck);
      SubUnref(sub.value, {});
    }

    /** The application delivers a verdict it had put off. */
    method Deliver(ticket: nat, success: bool, listed: bool) returns (code: Code)
      requires Inv(View(), {}) && ticket in infos
      modifies this
      ensures View() == Decide(old(View()), ticket, success, listed)
      ensures code == VerdictCode(TakeInfo(old(View()), ticket), success, old(infos)[ticket].p, listed)
      ensures Inv(View(), {})
    {
      var p := infos[ticket].p;
      TakeInfoKeeps(View(), ticket);
      infos := infos - {ticket};
      loose := loose + multiset{p.s};
      assert SubOk(View(), p.s);
      ghost var st := View();
      CleanupEffect(st, p);
      code := EvsOnCb(success, p, listed);
      assert loose == st.loose;
      SubUnref(p.s, {});
    }

    method EvsOff(c: ClientId, key: Key, spare: SubId)
      requires Inv(View(), {}) && spare !in subs
      modifies this
      ensures View() == Off(old(View()), c, key) && Inv(View(), {})
    {
      var sub := SubGet(key, false, spare);
      if sub.Some? {
        CleanupEffect(View(), Pair(c, sub.value));
        var _ := SubRemove(Pair(c, sub.value), false);
        SubUnref(sub.value, {});
      }
    }

    // ----- evs_qio.c and the router -----

    method HandlerOn(c: ClientId, target: Target, cb: CallbackId, luck: Luck) returns (o: Outcome)
      requires Inv(View(), {}) && luck.spare !in subs && luck.ticket !in infos
      modifies this
      ensures View() == Effect(old(View()), c, cb, OnRequest(target, luck))
      ensures o == HandleOn(old(View()), c, target, luck) && Inv(View(), {})
    {
      match target {
        case BadJson => o := Outcome(StatusHandled, [Bad], false);
        case NoEvent => o := Outcome(StatusHandled, [NotFound], false);
        case Target(key) =>
          var code := EvsOn(c, key, cb, luck);
          o := if code.Some? then Outcome(StatusHandled, [code.value], false) else Outcome(StatusHandled, [], true);
      }
    }

    method HandlerOff(c: ClientId, target: Target, cb: CallbackId, spare: SubId) returns (o: Outcome)
      requires Inv(View(), {}) && spare !in subs
      modifies this
      ensures View() == Effect(old(View()), c, cb, OffRequest(target)) && o == HandleOff(target) && Inv(View(), {})
    {
      match target {
        case BadJson => o := Outcome(StatusHandled, [Bad], false);
        case NoEvent => o := Outcome(StatusHandled, [NotFound], false);
        case Target(key) =>
          EvsOff(c, key, spare);
          o := Outcome(StatusOk, [], false);
      }
    }

    /** Routes one event.  If the handlers keep to their contract there is one reply now, or
        one later, and never both. */
    method EvsRoute(c: ClientId, cb: CallbackId, r: Request, spare: SubId) returns (replies: seq<Code>, later: bool)
      requires Inv(View(), {}) && spare !in subs && AppHonest(r)
      requires r.OnRequest? ==> r.luck.spare !in subs && r.luck.ticket !in infos
      modifies this
      ensures View() == Effect(old(View()), c, cb, r) && Inv(View(), {})
      ensures replies == Replies(Handle(old(View()), c, r), r) && later == Handle(old(View()), c, r).later
      ensures |replies| == if later then 0 else 1
    {
      HandlersAreHonest(View(), c, r);
      var o;
      match r {
        case Nowhere | Bare => o := Outcome(StatusErr, [], false);
        case App(outcome) => o := outcome;
        case OnRequest(target, luck) => o := HandlerOn(c, target, cb, luck);
        case OffRequest(target) => o := HandlerOff(c, target, cb, spare);
        case CallbackRequest(valid, found, outcome) =>
          if !valid {
            o := Outcome(StatusHandled, [Bad], false);
          } else if !found {
            o := Outcome(StatusHandled, [NotFound], false);
          } else {
            o := outcome;
          }
        case Hostname => o := Outcome(StatusHandled, [Ok], false);
        case Ping => o := Outcome(StatusOk, [], false);
      }
      replies, later := o.replies, o.later;
      match o.status {
        case StatusOk => replies := replies + [Ok];
        case StatusErr => replies := replies + [if r.Nowhere? then NotFound else Unknown];
        case StatusHandled =>
      }
    }
  }

  lemma {:induction false} CleanupAllSnoc(st: State, order: seq<Pair>, p: Pair)
    ensures CleanupAll(st, order + [p]) == Cleanup(CleanupAll(st, order), p)
    decreases |order|
  {
    if order == [] {
      assert (order + [p])[1..] == [];
    } else {
      assert (order + [p])[1..] == order[1..] + [p];
      CleanupAllSnoc(Cleanup(st, order[0]), order[1..], p);
    }
  }

  /** `order` lists the entries of `c` that are not left to do. */
  ghost predicate Swept(st: State, c: ClientId, todo: set<Pair>, order: seq<Pair>) {
    && todo <= PairsOf(st, c)
    && (forall p :: p in order <==> p in PairsOf(st, c) && p !in todo)
    && (forall i, j :: 0 <= i < j < |order| ==> order[i] != order[j])
  }

  lemma SweptOne(st: State, before: State, c: ClientId, todo: set<Pair>, order: seq<Pair>, p: Pair)
    requires Swept(st, c, todo, order) && p in todo && todo == PairsOf(before, c)
    ensures Swept(st, c, todo - {p}, order + [p])
    ensures PairsOf(Cleanup(before, p), c) == todo - {p} && Cleanup(before, p).closing == before.closing
  {
    CleanupEffect(before, p);
    assert forall q :: q in order + [p] <==> q in order || q == p;
  }
}
