/**
 What every operation keeps about subscriptions, their members and their references.
 */
module SubscriptionInvariants {
  import opened SubscriptionModel

  ghost function EntriesOn(st: State, s: SubId): set<Pair> { set p | p in st.entries && p.s == s }

  ghost function InfosOn(st: State, s: SubId): set<nat> { set i | i in st.infos && st.infos[i].p.s == s }

  /** A postponed request waits for the verdict on `p`. */
  ghost predicate Awaited(st: State, p: Pair) { exists i :: i in st.infos && st.infos[i].p == p }

  /** Clients and the list of subscribers agree on who is an active member. */
  ghost predicate MembersOk(st: State, s: SubId)
    requires s in st.subs
  {
    forall c {:trigger c in st.subs[s].members} {:trigger Pair(c, s)} ::
      c in st.subs[s].members <==> Pair(c, s) in st.entries && !st.entries[Pair(c, s)].pending
  }

  /** A subscription exists as long as something refers to it, counts exactly these
      references, and is what the table has for its key. */
  ghost predicate SubOk(st: State, s: SubId) {
    var refs := |EntriesOn(st, s)| + |InfosOn(st, s)| + st.loose[s];
    if s in st.subs then
      && st.subs[s].refs == refs > 0
      && st.subs[s].key in st.table && st.table[st.subs[s].key] == s
      && MembersOk(st, s)
    else refs == 0
  }

  ghost predicate KeyOk(st: State, k: Key) {
    k in st.table ==> st.table[k] in st.subs && st.subs[st.table[k]].key == k
  }

  /** An entry is pending while a verdict is out, be it postponed or, for pairs in `open`,
      due in the current operation; only pending entries carry a tombstone. */
  ghost predicate PairOk(st: State, p: Pair, open: set<Pair>) {
    var due := p in open || Awaited(st, p);
    && st.created[p] == st.offs[p] + (if p in st.entries then 1 else 0)
    && (p in st.entries ==>
          && (st.entries[p].tombstone ==> st.entries[p].pending)
          && (st.entries[p].pending <==> due)
          && p.c !in st.closed)
    && (p !in st.entries && due ==> p.c in st.closing)
    && (p in open ==> !Awaited(st, p))
  }

  ghost predicate InfosOk(st: State) {
    forall i, j {:trigger st.infos[i], st.infos[j]} :: i in st.infos && j in st.infos && i != j ==> st.infos[i].p != st.infos[j].p
  }

  ghost predicate Inv(st: State, open: set<Pair>) {
    && (forall s {:trigger SubOk(st, s)} :: SubOk(st, s))
    && (forall k {:trigger KeyOk(st, k)} :: KeyOk(st, k))
    && (forall p {:trigger PairOk(st, p, open)} :: PairOk(st, p, open))
    && InfosOk(st)
    && st.used == |st.entries|
    && st.closed <= st.closing
  }

  lemma InitInv()
    ensures Inv(Init(), {})
  {
  }

  // ----- references -----

  lemma SameCounts(st: State, r: State, s: SubId)
    requires r.entries.Keys == st.entries.Keys && r.infos == st.infos
    ensures EntriesOn(r, s) == EntriesOn(st, s) && InfosOn(r, s) == InfosOn(st, s)
  {
  }

  lemma HoldKeeps(st: State, s: SubId, open: set<Pair>)
    requires Inv(st, open) && s in st.subs
    ensures Inv(Hold(st, s), open)
  {
    var r := Hold(st, s);
    forall x: SubId ensures SubOk(r, x) { assert SubOk(st, x); SameCounts(st, r, x); }
    forall k: Key ensures KeyOk(r, k) { assert KeyOk(st, k); }
    forall p: Pair ensures PairOk(r, p, open) { assert PairOk(st, p, open); }
  }

  lemma ReleaseKeeps(st: State, s: SubId, open: set<Pair>)
    requires Inv(st, open) && s in st.loose
    ensures Inv(Release(st, s), open)
  {
    assert SubOk(st, s);
    assert st.loose[s] > 0;
    if st.subs[s].refs > 1 {
      LowerKeeps(st, s, open);
    } else {
      FreeKeeps(st, s, open);
    }
  }

  lemma LowerKeeps(st: State, s: SubId, open: set<Pair>)
    requires Inv(st, open) && s in st.loose && s in st.subs && st.subs[s].refs > 1
    ensures Inv(Release(st, s), open)
  {
    var r := Release(st, s);
    forall x: SubId ensures SubOk(r, x) {
      assert SubOk(st, x);
      SameCounts(st, r, x);
      if x in st.subs { assert MembersOk(st, x); }
    }
    forall k: Key ensures KeyOk(r, k) { assert KeyOk(st, k); }
    forall p: Pair ensures PairOk(r, p, open) { assert PairOk(st, p, open); }
  }

  /** The last reference was a loose one: no entry and no postponed request is left. */
  lemma FreeKeeps(st: State, s: SubId, open: set<Pair>)
    requires Inv(st, open) && s in st.loose && s in st.subs && st.subs[s].refs == 1
    ensures Inv(Release(st, s), open)
  {
    var r := Release(st, s);
    assert SubOk(st, s);
    assert r.subs == st.subs - {s} && r.table == st.table - {st.subs[s].key};
    forall x: SubId ensures SubOk(r, x) {
      assert SubOk(st, x);
      SameCounts(st, r, x);
      if x in st.subs { assert MembersOk(st, x); }
    }
    forall k: Key ensures KeyOk(r, k) { assert KeyOk(st, k); }
    forall p: Pair ensures PairOk(r, p, open) { assert PairOk(st, p, open); }
  }

  lemma GetKeeps(st: State, key: Key, create: bool, spare: SubId, open: set<Pair>)
    requires Inv(st, open) && spare !in st.subs
    ensures Inv(Get(st, key, create, spare), open)
    ensures var s := Got(st, key, create, spare);
            var r := Get(st, key, create, spare);
            s.Some? ==> s.value in r.loose && s.value in r.subs && r.subs[s.value].key == key
  {
    assert KeyOk(st, key);
    if key in st.table {
      HoldKeeps(st, st.table[key], open);
    } else if create {
      var r := Get(st, key, create, spare);
      assert SubOk(st, spare);
      forall p | p in st.entries ensures p.s != spare { assert p in EntriesOn(st, p.s); }
      forall x: SubId ensures SubOk(r, x) { assert SubOk(st, x); SameCounts(st, r, x); }
      forall k: Key ensures KeyOk(r, k) { assert KeyOk(st, k); }
      forall p: Pair ensures PairOk(r, p, open) { assert PairOk(st, p, open); }
    }
  }

  // ----- entries -----

  lemma DetachedSubs(st: State, p: Pair, x: SubId)
    requires p in st.entries && SubOk(st, x) && SubOk(st, p.s)
    ensures SubOk(Detached(st, p), x)
  {
    var r := Detached(st, p);
    assert p in EntriesOn(st, p.s);
    assert EntriesOn(r, x) == EntriesOn(st, x) - {p};
    assert InfosOn(r, x) == InfosOn(st, x);
    if x in st.subs {
      assert MembersOk(st, x);
      forall c: ClientId
        ensures c in r.subs[x].members <==> Pair(c, x) in r.entries && !r.entries[Pair(c, x)].pending
      {
        assert c in st.subs[x].members <==> Pair(c, x) in st.entries && !st.entries[Pair(c, x)].pending;
      }
    }
  }

  lemma DetachedKeeps(st: State, p: Pair, open: set<Pair>)
    requires Inv(st, open) && p in st.entries
    requires Awaited(st, p) ==> p.c in st.closing
    ensures Inv(Detached(st, p), open - {p}) && p.s in Detached(st, p).loose
  {
    var r := Detached(st, p);
    assert SubOk(st, p.s);
    assert p in EntriesOn(st, p.s);
    forall x: SubId ensures SubOk(r, x) { assert SubOk(st, x); DetachedSubs(st, p, x); }
    forall k: Key ensures KeyOk(r, k) { assert KeyOk(st, k); }
    forall q: Pair ensures PairOk(r, q, open - {p}) { assert PairOk(st, q, open); }
  }

  lemma CleanupKeeps(st: State, p: Pair, open: set<Pair>)
    requires Inv(st, open) && p in st.entries
    requires Awaited(st, p) ==> p.c in st.closing
    ensures Inv(Cleanup(st, p), open - {p})
  {
    DetachedKeeps(st, p, open);
    ReleaseKeeps(Detached(st, p), p.s, open - {p});
  }

  /** Only the entry of `p` changes, and its membership does not. */
  lemma RewriteKeeps(st: State, p: Pair, e: Entry)
    requires Inv(st, {}) && p in st.entries && e.pending == st.entries[p].pending && (e.tombstone ==> e.pending)
    ensures Inv(st.(entries := st.entries[p := e]), {})
  {
    var r := st.(entries := st.entries[p := e]);
    forall x: SubId ensures SubOk(r, x) {
      assert SubOk(st, x);
      SameCounts(st, r, x);
      if x in st.subs { assert MembersOk(st, x); }
    }
    forall k: Key ensures KeyOk(r, k) { assert KeyOk(st, k); }
    forall q: Pair ensures PairOk(r, q, {}) { assert PairOk(st, q, {}); }
  }

  /** Taking one more reference, with the entry or postponed request that it is for. */
  lemma TakenSubs(st: State, r: State, s: SubId, x: SubId)
    requires s in st.subs && SubOk(st, x)
    requires r.subs == st.subs[s := st.subs[s].(refs := st.subs[s].refs + 1)] && r.table == st.table && r.loose == st.loose
    requires |EntriesOn(r, x)| + |InfosOn(r, x)| == |EntriesOn(st, x)| + |InfosOn(st, x)| + if x == s then 1 else 0
    requires forall c {:trigger Pair(c, x)} ::
               (Pair(c, x) in r.entries && !r.entries[Pair(c, x)].pending) == (Pair(c, x) in st.entries && !st.entries[Pair(c, x)].pending)
    ensures SubOk(r, x)
  {
    if x in st.subs {
      assert MembersOk(st, x);
      assert r.subs[x].members == st.subs[x].members;
      assert MembersOk(r, x);
    }
  }

  lemma CreatedCount(st: State, p: Pair, x: SubId)
    requires p !in st.entries && AddVerdict(st, p, true).Created?
    ensures var r := Add(st, p, true);
            && InfosOn(r, x) == InfosOn(st, x)
            && |EntriesOn(r, x)| == |EntriesOn(st, x)| + if x == p.s then 1 else 0
  {
    var r := Add(st, p, true);
    assert EntriesOn(r, x) == EntriesOn(st, x) + if x == p.s then {p} else {};
    assert p !in EntriesOn(st, x);
  }

  lemma CreatedSubs(st: State, p: Pair, x: SubId)
    requires p !in st.entries && p.s in st.subs && SubOk(st, x) && AddVerdict(st, p, true).Created?
    ensures SubOk(Add(st, p, true), x)
  {
    CreatedCount(st, p, x);
    TakenSubs(st, Add(st, p, true), p.s, x);
  }

  lemma CreateKeeps(st: State, p: Pair)
    requires Inv(st, {}) && p.s in st.subs && AddVerdict(st, p, true).Created?
    ensures Inv(Add(st, p, true), {p})
  {
    var r := Add(st, p, true);
    assert PairOk(st, p, {});
    assert SubOk(st, p.s);
    forall x: SubId ensures SubOk(r, x) { assert SubOk(st, x); CreatedSubs(st, p, x); }
    forall k: Key ensures KeyOk(r, k) { assert KeyOk(st, k); }
    forall q: Pair ensures PairOk(r, q, {p}) { assert PairOk(st, q, {}); }
  }

  /** A new entry starts out pending: its verdict is due. */
  lemma AddKeeps(st: State, p: Pair, fair: bool)
    requires Inv(st, {}) && p.s in st.subs
    ensures Inv(Add(st, p, fair), if AddVerdict(st, p, fair).Created? then {p} else {})
  {
    match AddVerdict(st, p, fair)
    case Refused =>
    case Pending | Active => RewriteKeeps(st, p, st.entries[p].(tombstone := false));
    case Created => CreateKeeps(st, p);
  }

  lemma AcceptKeeps(st: State, p: Pair, listed: bool)
    requires Inv(st, {p})
    ensures Inv(Accept(st, p, listed), {})
  {
    assert PairOk(st, p, {p});
    assert {p} - {p} == {};
    if p !in st.entries {
      forall q: Pair ensures PairOk(st, q, {}) { assert PairOk(st, q, {p}); }
    } else if AcceptVerdict(st, p, listed).Accepted? {
      var r := Accept(st, p, listed);
      assert SubOk(st, p.s);
      assert p in EntriesOn(st, p.s);
      forall x: SubId ensures SubOk(r, x) {
        assert SubOk(st, x);
        SameCounts(st, r, x);
        if x in st.subs { assert MembersOk(st, x); }
      }
      forall k: Key ensures KeyOk(r, k) { assert KeyOk(st, k); }
      forall q: Pair ensures PairOk(r, q, {}) { assert PairOk(st, q, {p}); }
    } else {
      CleanupKeeps(st, p, {p});
    }
  }

  lemma RejectKeeps(st: State, p: Pair)
    requires Inv(st, {p})
    ensures Inv(Reject(st, p), {})
  {
    assert PairOk(st, p, {p});
    assert {p} - {p} == {};
    if p in st.entries {
      CleanupKeeps(st, p, {p});
    } else {
      forall q: Pair ensures PairOk(st, q, {}) { assert PairOk(st, q, {p}); }
    }
  }

  lemma RemoveKeeps(st: State, p: Pair)
    requires Inv(st, {})
    ensures Inv(Remove(st, p), {})
  {
    assert PairOk(st, p, {});
    assert {} - {p} == {};
    if p in st.entries {
      if st.entries[p].pending {
        RewriteKeeps(st, p, st.entries[p].(tombstone := true));
      } else {
        CleanupKeeps(st, p, {});
      }
    }
  }

  // ----- events -----

  lemma PostponedCount(st: State, p: Pair, cb: CallbackId, ticket: nat, x: SubId)
    requires ticket !in st.infos
    ensures var r := Postpone(st, p, cb, ticket);
            && EntriesOn(r, x) == EntriesOn(st, x)
            && |InfosOn(r, x)| == |InfosOn(st, x)| + if x == p.s then 1 else 0
  {
    var r := Postpone(st, p, cb, ticket);
    assert InfosOn(r, x) == InfosOn(st, x) + if x == p.s then {ticket} else {};
    assert ticket !in InfosOn(st, x);
  }

  lemma PostponedSubs(st: State, p: Pair, cb: CallbackId, ticket: nat, x: SubId)
    requires p.s in st.subs && ticket !in st.infos && SubOk(st, x)
    ensures SubOk(Postpone(st, p, cb, ticket), x)
  {
    PostponedCount(st, p, cb, ticket, x);
    TakenSubs(st, Postpone(st, p, cb, ticket), p.s, x);
  }

  lemma PostponedWaits(st: State, p: Pair, cb: CallbackId, ticket: nat, q: Pair)
    requires ticket !in st.infos
    ensures Awaited(Postpone(st, p, cb, ticket), q) <==> Awaited(st, q) || q == p
  {
    var r := Postpone(st, p, cb, ticket);
    if q == p { assert r.infos[ticket].p == p; }
    if Awaited(st, q) {
      var i :| i in st.infos && st.infos[i].p == q;
      assert r.infos[i].p == q;
    }
  }

  /** Putting the verdict off trades what is due now for a postponed request. */
  lemma PostponeKeeps(st: State, p: Pair, cb: CallbackId, ticket: nat)
    requires Inv(st, {p}) && p in st.entries && ticket !in st.infos
    ensures Inv(Postpone(st, p, cb, ticket), {})
  {
    var r := Postpone(st, p, cb, ticket);
    assert PairOk(st, p, {p});
    assert SubOk(st, p.s);
    assert p in EntriesOn(st, p.s);
    forall x: SubId ensures SubOk(r, x) { assert SubOk(st, x); PostponedSubs(st, p, cb, ticket, x); }
    forall k: Key ensures KeyOk(r, k) { assert KeyOk(st, k); }
    forall q: Pair ensures PairOk(r, q, {}) { assert PairOk(st, q, {p}); PostponedWaits(st, p, cb, ticket, q); }
    forall i, j | i in r.infos && j in r.infos && i != j ensures r.infos[i].p != r.infos[j].p {
      assert !Awaited(st, p);
    }
  }

  lemma VerdictKeeps(st: State, success: bool, p: Pair, listed: bool)
    requires Inv(st, {p})
    ensures Inv(Verdict(st, success, p, listed), {}) && Verdict(st, success, p, listed).loose == st.loose
  {
    if success { AcceptKeeps(st, p, listed); } else { RejectKeeps(st, p); }
    CleanupKeepsLoose(st, p);
  }

  lemma SubscribeKeeps(st: State, p: Pair, key: Key, cb: CallbackId, luck: Luck)
    requires Inv(st, {}) && p.s in st.loose && luck.ticket !in st.infos
    ensures Inv(Subscribe(st, p, key, cb, luck), {}) && Subscribe(st, p, key, cb, luck).loose == st.loose
  {
    assert SubOk(st, p.s);
    AddKeeps(st, p, luck.fair);
    var st1 := Add(st, p, luck.fair);
    if AddVerdict(st, p, luck.fair).Created? {
      match OnStatus(key, luck)
      case StatusOk => VerdictKeeps(st1, true, p, luck.listed);
      case StatusErr => VerdictKeeps(st1, false, p, luck.listed);
      case StatusHandled => PostponeKeeps(st1, p, cb, luck.ticket);
    }
  }

  lemma CleanupKeepsLoose(st: State, p: Pair)
    ensures Cleanup(st, p).loose == st.loose
  {
  }

  lemma OnKeeps(st: State, c: ClientId, key: Key, cb: CallbackId, luck: Luck)
    requires Inv(st, {}) && luck.spare !in st.subs && luck.ticket !in st.infos
    ensures Inv(On(st, c, key, cb, luck), {})
  {
    GetKeeps(st, key, true, luck.spare, {});
    var s := Got(st, key, true, luck.spare).value;
    var st1 := Get(st, key, true, luck.spare);
    SubscribeKeeps(st1, Pair(c, s), key, cb, luck);
    ReleaseKeeps(Subscribe(st1, Pair(c, s), key, cb, luck), s, {});
  }

  /** A verdict that arrives is due; its request no longer waits. */
  lemma TakeInfoKeeps(st: State, ticket: nat)
    requires Inv(st, {}) && ticket in st.infos
    ensures Inv(TakeInfo(st, ticket), {st.infos[ticket].p})
  {
    var p := st.infos[ticket].p;
    var r := TakeInfo(st, ticket);
    forall x: SubId ensures SubOk(r, x) {
      assert SubOk(st, x);
      assert EntriesOn(r, x) == EntriesOn(st, x);
      assert InfosOn(r, x) == InfosOn(st, x) - {ticket};
      assert ticket in InfosOn(st, p.s);
      if x in st.subs { assert MembersOk(st, x); }
    }
    forall k: Key ensures KeyOk(r, k) { assert KeyOk(st, k); }
    forall q: Pair ensures PairOk(r, q, {p}) {
      assert PairOk(st, q, {});
      assert Awaited(r, q) || q == p <==> Awaited(st, q) by {
        if Awaited(st, q) && q != p { var i :| i in st.infos && st.infos[i].p == q; assert r.infos[i].p == q; }
        if q == p { assert st.infos[ticket].p == q; }
      }
    }
  }

  lemma DecideKeeps(st: State, ticket: nat, success: bool, listed: bool)
    requires Inv(st, {}) && ticket in st.infos
    ensures Inv(Decide(st, ticket, success, listed), {})
  {
    var p := st.infos[ticket].p;
    TakeInfoKeeps(st, ticket);
    var st1 := TakeInfo(st, ticket);
    if success { AcceptKeeps(st1, p, listed); } else { RejectKeeps(st1, p); }
    CleanupKeepsLoose(st1, p);
    ReleaseKeeps(Verdict(st1, success, p, listed), p.s, {});
  }

  lemma OffKeeps(st: State, c: ClientId, key: Key)
    requires Inv(st, {})
    ensures Inv(Off(st, c, key), {})
  {
    if key in st.table {
      var s := st.table[key];
      assert KeyOk(st, key);
      HoldKeeps(st, s, {});
      var st1 := Get(st, key, false, s);
      RemoveKeeps(st1, Pair(c, s));
      CleanupKeepsLoose(st1, Pair(c, s));
      ReleaseKeeps(Remove(st1, Pair(c, s)), s, {});
    }
  }
}
