/**
 Why the operations of the subscription table may be taken whole: every action of every thread
 amounts to one of them or to nothing.
 */
module SubAtomic {
  import opened Options
  import opened SubTable
  import Whole = SubscriptionModel

  /** What the table of event `ev` looks like from outside: the subscriptions that have
      references, the keys that lead to them, and the references. */
  ghost function Project(st: State, ev: Whole.Event): Whole.State {
    Whole.Init().(subs := LiveSubs(st, ev), table := LiveTable(st, ev), loose := st.held)
  }

  ghost predicate Live(st: State, s: Addr) { s in st.mem && st.mem[s].refs > 0 }

  ghost function LiveSubs(st: State, ev: Whole.Event): map<Whole.SubId, Whole.Sub> {
    map s | s in st.mem && Live(st, s) :: Whole.Sub(Whole.Key(ev, st.mem[s].extra), st.mem[s].refs, {})
  }

  ghost function LiveTable(st: State, ev: Whole.Event): map<Whole.Key, Whole.SubId> {
    map k | k in st.table && Live(st, st.table[k].sub) :: Whole.Key(ev, k) := st.table[k].sub
  }

  /** An operation taken whole. */
  datatype Atomic = Nothing | GetWhole(key: Whole.Key, create: bool, spare: Addr) | HoldWhole(s: Addr) | ReleaseWhole(s: Addr)

  ghost function Effect(a: Atomic, st: Whole.State): Whole.State {
    match a
    case Nothing => st
    case GetWhole(key, create, spare) => Whole.Get(st, key, create, spare)
    case HoldWhole(s) => Whole.Hold(st, s)
    case ReleaseWhole(s) => Whole.Release(st, s)
  }

  /** A lookup has been called and has not taken effect. */
  predicate Underway(pc: Pc) {
    match pc
    case WantRead(_, _) | Reading(_, _) | Loading(_, _, _, _) | Swapping(_, _, _, _, _) => true
    case WantWrite(_) | Writing(_) | Creating(_) => true
    case Missed(_, create) => create
    case _ => false
  }

  function KeyOf(pc: Pc): Key {
    match pc
    case WantRead(key, _) => key
    case Reading(key, _) => key
    case Loading(key, _, _, _) => key
    case Swapping(key, _, _, _, _) => key
    case Missed(key, _) => key
    case WantWrite(key) => key
    case Writing(key) => key
    case Creating(key) => key
    case _ => ""
  }

  /** Whether the lookup is to create what it does not find. */
  function CreateOf(pc: Pc): bool {
    match pc
    case WantRead(_, create) => create
    case Reading(_, create) => create
    case Loading(_, create, _, _) => create
    case Swapping(_, create, _, _, _) => create
    case Missed(_, create) => create
    case WantWrite(_) => true
    case Writing(_) => true
    case Creating(_) => true
    case _ => false
  }

  /** A lookup takes effect when it has a subscription, or when it gives up without creating one. */
  ghost function AtomicOf(st: State, t: Thread, a: Action, ev: Whole.Event): Atomic
    requires Enabled(st, t, a)
  {
    match a
    case Get(_, _) => Nothing
    case Ref(s) => HoldWhole(s)
    case Unref(s) => ReleaseWhole(s)
    case Next(spare) =>
      var pc, next := PcOf(st, t), PcOf(Apply(st, t, a), t);
      if Underway(pc) && !Underway(next) then GetWhole(Whole.Key(ev, KeyOf(pc)), CreateOf(pc), spare) else Nothing
  }

  /** What a lookup returns, once it has taken effect. */
  function Result(pc: Pc): Option<Addr> { if pc.Found? then Some(pc.sub) else None }

  /** From outside, an action is the operation it takes effect as, or nothing; and a lookup returns
      what the whole operation returns. */
  ghost predicate ActsAs(st: State, t: Thread, a: Action, ev: Whole.Event)
    requires Enabled(st, t, a)
  {
    var r, w := Apply(st, t, a), AtomicOf(st, t, a, ev);
    && Project(r, ev) == Effect(w, Project(st, ev))
    && (w.GetWhole? ==> Result(PcOf(r, t)) == Whole.Got(Project(st, ev), w.key, w.create, w.spare))
  }

  lemma SameTable(st: State, r: State, ev: Whole.Event)
    requires forall k :: (k in r.table && Live(r, r.table[k].sub)) <==> (k in st.table && Live(st, st.table[k].sub))
    requires forall k :: k in st.table && k in r.table && Live(st, st.table[k].sub) ==> r.table[k].sub == st.table[k].sub
    ensures LiveTable(r, ev) == LiveTable(st, ev)
  {
  }

  lemma SameProjection(st: State, r: State, ev: Whole.Event)
    requires r.held == st.held
    requires forall s :: Live(r, s) <==> Live(st, s)
    requires forall s :: Live(st, s) && s in r.mem ==> r.mem[s] == st.mem[s]
    requires forall k :: (k in r.table && Live(r, r.table[k].sub)) <==> (k in st.table && Live(st, st.table[k].sub))
    requires forall k :: k in st.table && k in r.table && Live(st, st.table[k].sub) ==> r.table[k].sub == st.table[k].sub
    ensures Project(r, ev) == Project(st, ev)
  {
    assert LiveSubs(r, ev) == LiveSubs(st, ev);
    SameTable(st, r, ev);
  }

  lemma RaisedSubs(st: State, r: State, s: Addr, ev: Whole.Event)
    requires Live(st, s) && r.mem == st.mem[s := st.mem[s].(refs := st.mem[s].refs + 1)]
    ensures LiveSubs(r, ev) == LiveSubs(st, ev)[s := Whole.Sub(Whole.Key(ev, st.mem[s].extra), st.mem[s].refs + 1, {})]
  {
  }

  lemma RaiseIsHold(st: State, r: State, s: Addr, ev: Whole.Event)
    requires Live(st, s) && r.mem == st.mem[s := st.mem[s].(refs := st.mem[s].refs + 1)]
    requires r.table == st.table && r.held == st.held + multiset{s}
    ensures Project(r, ev) == Whole.Hold(Project(st, ev), s)
  {
    RaisedSubs(st, r, s, ev);
    assert forall x :: Live(r, x) <==> Live(st, x);
    SameTable(st, r, ev);
  }

  lemma LoweredSubs(st: State, r: State, s: Addr, ev: Whole.Event)
    requires Live(st, s) && r.mem == st.mem[s := st.mem[s].(refs := st.mem[s].refs - 1)]
    ensures LiveSubs(r, ev)
         == if st.mem[s].refs == 1 then LiveSubs(st, ev) - {s}
            else LiveSubs(st, ev)[s := Whole.Sub(Whole.Key(ev, st.mem[s].extra), st.mem[s].refs - 1, {})]
  {
  }

  lemma LoweredTable(st: State, r: State, s: Addr, ev: Whole.Event)
    requires TableOk(st) && Live(st, s) && r.mem == st.mem[s := st.mem[s].(refs := st.mem[s].refs - 1)] && r.table == st.table
    ensures var key := Whole.Key(ev, st.mem[s].extra);
            && key in LiveTable(st, ev) && LiveTable(st, ev)[key] == s
            && LiveTable(r, ev) == if st.mem[s].refs == 1 then LiveTable(st, ev) - {key} else LiveTable(st, ev)
  {
    assert Listed(st, s);
  }

  lemma LowerIsRelease(st: State, r: State, s: Addr, ev: Whole.Event)
    requires TableOk(st) && Live(st, s) && r.mem == st.mem[s := st.mem[s].(refs := st.mem[s].refs - 1)]
    requires r.table == st.table && r.held == st.held - multiset{s}
    ensures Project(r, ev) == Whole.Release(Project(st, ev), s)
  {
    LoweredSubs(st, r, s, ev);
    LoweredTable(st, r, s, ev);
  }

  lemma CreatedSubs(st: State, r: State, key: Key, spare: Addr, ev: Whole.Event)
    requires spare !in st.mem && r.mem == st.mem[spare := Sub(key, 1)]
    ensures LiveSubs(r, ev) == LiveSubs(st, ev)[spare := Whole.Sub(Whole.Key(ev, key), 1, {})]
  {
  }

  lemma CreatedTable(st: State, r: State, key: Key, spare: Addr, ev: Whole.Event)
    requires r.table == st.table[key := Entry(spare, spare)] && Live(r, spare)
    requires forall k {:trigger st.table[k]} :: k in st.table ==> (Live(r, st.table[k].sub) <==> Live(st, st.table[k].sub))
    ensures LiveTable(r, ev) == LiveTable(st, ev)[Whole.Key(ev, key) := spare]
  {
  }

  lemma CreateIsGet(st: State, r: State, key: Key, spare: Addr, ev: Whole.Event)
    requires TableOk(st) && spare !in st.mem && !(key in st.table && Live(st, st.table[key].sub))
    requires r.mem == st.mem[spare := Sub(key, 1)] && r.table == st.table[key := Entry(spare, spare)]
    requires r.held == st.held + multiset{spare}
    ensures Project(r, ev) == Whole.Get(Project(st, ev), Whole.Key(ev, key), true, spare)
    ensures Whole.Key(ev, key) !in Project(st, ev).table
  {
    CreatedSubs(st, r, key, spare, ev);
    forall k | k in st.table ensures Live(r, st.table[k].sub) <==> Live(st, st.table[k].sub) {
      assert st.table[k].sub in st.mem;
    }
    CreatedTable(st, r, key, spare, ev);
  }

  /** Every action of every thread acts whole. */
  lemma ActsWhole(st: State, t: Thread, a: Action, ev: Whole.Event)
    requires Inv(st) && Enabled(st, t, a)
    ensures ActsAs(st, t, a, ev)
  {
    var r := Apply(st, t, a);
    assert PcOk(st, t);
    match a
    case Get(_, _) => SameProjection(st, r, ev);
    case Ref(s) =>
      assert st.held[s] > 0;
      RaiseIsHold(st, r, s, ev);
    case Unref(s) =>
      assert st.held[s] > 0;
      LowerIsRelease(st, r, s, ev);
    case Next(spare) => AdvancesWhole(st, t, spare, ev);
  }

  lemma MovesWhole(st: State, r: State, ev: Whole.Event)
    requires r.mem == st.mem && r.table == st.table && r.held == st.held
    ensures Project(r, ev) == Project(st, ev)
  {
    SameProjection(st, r, ev);
  }

  /** What is taken apart is not seen from outside any more. */
  lemma RemovesWhole(st: State, t: Thread, spare: Addr, ev: Whole.Event)
    requires Enabled(st, t, Next(spare)) && PcOk(st, t) && (PcOf(st, t).Removing? || PcOf(st, t).Freeing?)
    ensures ActsAs(st, t, Next(spare), ev)
  {
    SameProjection(st, Advance(st, t, spare), ev);
  }

  /** A lookup that gives up has found nothing that has references. */
  lemma MissesWhole(st: State, t: Thread, spare: Addr, ev: Whole.Event)
    requires PcOk(st, t) && Enabled(st, t, Next(spare)) && PcOf(Advance(st, t, spare), t).Missed?
    ensures Whole.Key(ev, KeyOf(PcOf(st, t))) !in LiveTable(st, ev)
  {
  }

  lemma CreatesWhole(st: State, t: Thread, spare: Addr, ev: Whole.Event)
    requires TableOk(st) && Enabled(st, t, Next(spare)) && PcOk(st, t) && PcOf(st, t).Creating?
    ensures ActsAs(st, t, Next(spare), ev)
  {
    var r, key := Advance(st, t, spare), PcOf(st, t).key;
    CreateEffect(st, t, spare);
    CreateIsGet(st, r, key, spare, ev);
    assert AtomicOf(st, t, Next(spare), ev) == GetWhole(Whole.Key(ev, key), true, spare);
  }

  lemma CreateEffect(st: State, t: Thread, spare: Addr)
    requires Enabled(st, t, Next(spare)) && PcOk(st, t) && PcOf(st, t).Creating?
    ensures var r, key := Advance(st, t, spare), PcOf(st, t).key;
            && !(key in st.table && Live(st, st.table[key].sub)) && spare !in st.mem
            && r.mem == st.mem[spare := Sub(key, 1)] && r.table == st.table[key := Entry(spare, spare)]
            && r.held == st.held + multiset{spare} && PcOf(r, t) == Found(spare, true)
  {
  }

  lemma AdvancesWhole(st: State, t: Thread, spare: Addr, ev: Whole.Event)
    requires TableOk(st) && Enabled(st, t, Next(spare)) && PcOk(st, t)
    ensures ActsAs(st, t, Next(spare), ev)
  {
    var pc := PcOf(st, t);
    if pc.Creating? {
      CreatesWhole(st, t, spare, ev);
    } else if pc.Swapping? && SubAt(st, pc.sub).refs == pc.val {
      SwapsWhole(st, t, spare, ev);
    } else if pc.Removing? || pc.Freeing? {
      RemovesWhole(st, t, spare, ev);
    } else {
      WaitsWhole(st, t, spare, ev);
    }
  }

  lemma WaitsWhole(st: State, t: Thread, spare: Addr, ev: Whole.Event)
    requires Enabled(st, t, Next(spare)) && PcOk(st, t)
    requires var pc := PcOf(st, t);
             !(pc.Creating? || pc.Removing? || pc.Freeing? || (pc.Swapping? && SubAt(st, pc.sub).refs == pc.val))
    ensures ActsAs(st, t, Next(spare), ev)
  {
    var r := Advance(st, t, spare);
    WaitEffect(st, t, spare);
    MovesWhole(st, r, ev);
    if PcOf(r, t).Missed? && !PcOf(r, t).create { MissesWhole(st, t, spare, ev); }
  }

  lemma WaitEffect(st: State, t: Thread, spare: Addr)
    requires Enabled(st, t, Next(spare))
    requires var pc := PcOf(st, t);
             !(pc.Creating? || pc.Removing? || pc.Freeing? || (pc.Swapping? && SubAt(st, pc.sub).refs == pc.val))
    ensures var r, pc := Advance(st, t, spare), PcOf(st, t);
            && r.mem == st.mem && r.table == st.table && r.held == st.held
            && (Underway(pc) && !Underway(PcOf(r, t)) ==> PcOf(r, t).Missed? && !PcOf(r, t).create && !CreateOf(pc))
  {
  }

  lemma SwapsWhole(st: State, t: Thread, spare: Addr, ev: Whole.Event)
    requires Enabled(st, t, Next(spare)) && PcOk(st, t)
    requires PcOf(st, t).Swapping? && SubAt(st, PcOf(st, t).sub).refs == PcOf(st, t).val
    ensures ActsAs(st, t, Next(spare), ev)
  {
    var pc := PcOf(st, t);
    RaiseIsHold(st, Advance(st, t, spare), pc.sub, ev);
    assert Whole.Key(ev, pc.key) in LiveTable(st, ev) && LiveTable(st, ev)[Whole.Key(ev, pc.key)] == pc.sub;
  }

  /** The same for whole runs. */
  lemma RunsWhole(sts: seq<State>, steps: seq<Step>, k: nat, ev: Whole.Event)
    requires IsRun(sts, steps) && k < |steps|
    ensures Enabled(sts[k], steps[k].t, steps[k].a) && ActsAs(sts[k], steps[k].t, steps[k].a, ev)
    ensures Project(sts[k + 1], ev) == Effect(AtomicOf(sts[k], steps[k].t, steps[k].a, ev), Project(sts[k], ev))
    ensures Project(sts[0], ev) == Whole.Init()
  {
    RunKeeps(sts, steps, k);
    assert Enabled(sts[k], steps[k].t, steps[k].a);
    ActsWhole(sts[k], steps[k].t, steps[k].a, ev);
  }

  /** A lookup is under way from its call until it takes effect, and returns after that: so every
      lookup takes effect exactly once. */
  lemma TakesEffectOnce(st: State, t: Thread, a: Action, ev: Whole.Event)
    requires Enabled(st, t, a)
    ensures var pc, next := PcOf(st, t), PcOf(Apply(st, t, a), t);
            && (a.Get? ==> Underway(next))
            && (AtomicOf(st, t, a, ev).GetWhole? <==> Underway(pc) && !Underway(next))
            && (a.Next? && !Underway(pc) ==> !Underway(next))
            && (a.Next? && (pc.Found? || pc.Missed?) && !Underway(pc) ==> next.Out?)
  {
  }

  // ----- what the caller gets -----

  /** The last lookup that a thread has called: its key, and whether it is to create. */
  function LastCall(steps: seq<Step>, t: Thread): Option<(Key, bool)> {
    if steps == [] then None else
      var s := steps[|steps| - 1];
      if s.t == t && s.a.Get? then Some((s.a.key, s.a.create)) else LastCall(steps[..|steps| - 1], t)
  }

  /** Only a lookup that is to create goes on under the write lock. */
  predicate WritesToCreate(pc: Pc) {
    (pc.Loading? || pc.Swapping?) && pc.exclusive ==> pc.create
  }

  /** A lookup keeps its key and its purpose while it is under way. */
  ghost predicate Same(pc: Pc, next: Pc) {
    WritesToCreate(next) && (Underway(next) ==> Underway(pc) && KeyOf(next) == KeyOf(pc) && CreateOf(next) == CreateOf(pc))
  }

  lemma LooksSame(st: State, t: Thread, spare: Addr)
    requires Enabled(st, t, Next(spare)) && WritesToCreate(PcOf(st, t))
    requires var pc := PcOf(st, t); pc.WantRead? || pc.Reading? || pc.Loading? || pc.Missed? || pc.Found? || pc.WantWrite? || pc.Writing?
    ensures var r := Advance(st, t, spare); Same(PcOf(st, t), PcOf(r, t)) && r.pcs == st.pcs[t := PcOf(r, t)]
  {
  }

  lemma ChangesSame(st: State, t: Thread, spare: Addr)
    requires Enabled(st, t, Next(spare)) && WritesToCreate(PcOf(st, t))
    requires var pc := PcOf(st, t); pc.Swapping? || pc.Creating? || pc.Zeroed? || pc.Removing? || pc.Removed? || pc.Freeing?
    ensures var r := Advance(st, t, spare); Same(PcOf(st, t), PcOf(r, t)) && r.pcs == st.pcs[t := PcOf(r, t)]
  {
  }

  lemma StaysTheSame(st: State, t: Thread, a: Action)
    requires Enabled(st, t, a) && WritesToCreate(PcOf(st, t))
    ensures var r := Apply(st, t, a);
            && r.pcs == st.pcs[t := PcOf(r, t)] && WritesToCreate(PcOf(r, t))
            && (a.Get? ==> KeyOf(PcOf(r, t)) == a.key && CreateOf(PcOf(r, t)) == a.create)
            && (!a.Get? ==> Same(PcOf(st, t), PcOf(r, t)))
  {
    if a.Next? {
      var pc := PcOf(st, t);
      if pc.Swapping? || pc.Creating? || pc.Zeroed? || pc.Removing? || pc.Removed? || pc.Freeing? {
        ChangesSame(st, t, a.spare);
      } else {
        LooksSame(st, t, a.spare);
      }
    }
  }

  /** A thread that is looking something up is looking up what it was called for. */
  lemma {:induction false} LooksForTheCall(sts: seq<State>, steps: seq<Step>, k: nat, t: Thread)
    requires IsRun(sts, steps) && k < |sts|
    ensures WritesToCreate(PcOf(sts[k], t))
    ensures var pc := PcOf(sts[k], t); Underway(pc) ==> LastCall(steps[..k], t) == Some((KeyOf(pc), CreateOf(pc)))
  {
    if k > 0 {
      var s := steps[k - 1];
      assert Enabled(sts[k - 1], s.t, s.a) && sts[k] == Apply(sts[k - 1], s.t, s.a);
      assert steps[..k][..k - 1] == steps[..k - 1] && steps[..k][k - 1] == s;
      LooksForTheCall(sts, steps, k - 1, t);
      LooksForTheCall(sts, steps, k - 1, s.t);
      StaysTheSame(sts[k - 1], s.t, s.a);
    }
  }

  /** Some subscription with this key has references. */
  ghost predicate Exists(st: State, key: Key) { exists s :: Live(st, s) && st.mem[s].extra == key }

  lemma LiveIsListed(st: State, key: Key, ev: Whole.Event)
    requires TableOk(st)
    ensures Exists(st, key) <==> Whole.Key(ev, key) in LiveTable(st, ev)
    ensures Exists(st, key) ==> st.mem[LiveTable(st, ev)[Whole.Key(ev, key)]].extra == key
  {
    if Exists(st, key) {
      var s :| Live(st, s) && st.mem[s].extra == key;
      assert Listed(st, s);
    }
    if Whole.Key(ev, key) in LiveTable(st, ev) {
      assert Live(st, st.table[key].sub) && st.mem[st.table[key].sub].extra == key;
    }
  }

  lemma WholeGets(st: Whole.State, key: Whole.Key, create: bool, spare: Addr)
    ensures var result := Whole.Got(st, key, create, spare);
            && (result.Some? <==> create || key in st.table)
            && Whole.Get(st, key, create, spare).loose == if result.Some? then st.loose + multiset{result.value} else st.loose
  {
  }

  /** When a lookup takes effect, it returns a subscription of its key, and one more handle on it,
      if there is one or it is to create it; otherwise it returns nothing, and no handle. */
  ghost predicate Gets(st: State, r: State, key: Key, create: bool, result: Option<Addr>) {
    && (result.Some? <==> create || Exists(st, key))
    && (result.Some? ==> result.value in r.mem && r.mem[result.value].extra == key && r.held == st.held + multiset{result.value})
    && (result.None? ==> r.held == st.held)
  }

  lemma StepGets(st: State, t: Thread, a: Action)
    requires Inv(st) && Enabled(st, t, a) && Underway(PcOf(st, t)) && !Underway(PcOf(Apply(st, t, a), t))
    ensures Gets(st, Apply(st, t, a), KeyOf(PcOf(st, t)), CreateOf(PcOf(st, t)), Result(PcOf(Apply(st, t, a), t)))
  {
    var ev := Whole.Event(0, false, false);
    ActsWhole(st, t, a, ev);
    LiveIsListed(st, KeyOf(PcOf(st, t)), ev);
    ResultHasKey(st, t, a);
    var w := AtomicOf(st, t, a, ev);
    WholeGets(Project(st, ev), w.key, w.create, w.spare);
    assert Project(Apply(st, t, a), ev).loose == Apply(st, t, a).held;
  }

  /** Over all runs, with the key and the purpose of the call that started the lookup. */
  lemma CallsGetWhatTheyAskFor(sts: seq<State>, steps: seq<Step>, k: nat)
    requires IsRun(sts, steps) && k < |steps|
    requires Underway(PcOf(sts[k], steps[k].t)) && !Underway(PcOf(sts[k + 1], steps[k].t))
    ensures var call := LastCall(steps[..k], steps[k].t);
            call.Some? && Gets(sts[k], sts[k + 1], call.value.0, call.value.1, Result(PcOf(sts[k + 1], steps[k].t)))
  {
    LooksForTheCall(sts, steps, k, steps[k].t);
    RunKeeps(sts, steps, k);
    assert Enabled(sts[k], steps[k].t, steps[k].a) && sts[k + 1] == Apply(sts[k], steps[k].t, steps[k].a);
    StepGets(sts[k], steps[k].t, steps[k].a);
  }

  lemma ResultHasKey(st: State, t: Thread, a: Action)
    requires Inv(st) && Enabled(st, t, a) && Underway(PcOf(st, t))
    ensures var r := Apply(st, t, a);
            Result(PcOf(r, t)).Some? ==>
              Result(PcOf(r, t)).value in r.mem && r.mem[Result(PcOf(r, t)).value].extra == KeyOf(PcOf(st, t))
  {
    assert PcOk(st, t);
  }
}
