/**
 The table of subscriptions of one event, shared by threads that interleave at every atomic
 action: a reader-writer lock guards the table, but reference counts are changed without it.
 */
module SubTable {
  import opened Options

  type Key = string
  type Addr = int
  type Thread = int

  /** A subscription in memory. */
  datatype Sub = Sub(extra: Key, refs: nat)

  /** A table entry: the memory of its key belongs to the subscription `owner`. */
  datatype Entry = Entry(owner: Addr, sub: Addr)

  /** Where a thread stands.  `Reading` and `Writing` hold the lock and are about to look the
      key up; `Loading` is about to read the count, `Swapping` about to compare-and-swap it;
      the writer's flavour of these is marked by `exclusive`.  `Zeroed` has dropped the last
      reference and waits for the lock; `Removing` has it; `Freeing` is past it. */
  datatype Pc =
    | Out
    | WantRead(key: Key, create: bool)
    | Reading(key: Key, create: bool)
    | Loading(key: Key, create: bool, sub: Addr, exclusive: bool)
    | Swapping(key: Key, create: bool, sub: Addr, val: nat, exclusive: bool)
    | Missed(key: Key, create: bool)
    | Found(sub: Addr, exclusive: bool)
    | WantWrite(key: Key)
    | Writing(key: Key)
    | Creating(key: Key)
    | Zeroed(sub: Addr)
    | Removing(sub: Addr)
    | Removed(sub: Addr)
    | Freeing(sub: Addr)

  /** `held` counts the handles given out and not yet given back. */
  datatype State = State(
    mem: map<Addr, Sub>, table: map<Key, Entry>,
    readers: set<Thread>, writer: Option<Thread>,
    pcs: map<Thread, Pc>, held: multiset<Addr>)

  function Init(): State { State(map[], map[], {}, None, map[], multiset{}) }

  function PcOf(st: State, t: Thread): Pc { if t in st.pcs then st.pcs[t] else Out }

  function Goto(st: State, t: Thread, pc: Pc): State { st.(pcs := st.pcs[t := pc]) }

  /** Reading freed memory yields anything, writing it does nothing we could rely on; that
      neither happens is `NothingFreedIsTouched` below. */
  function SubAt(st: State, s: Addr): Sub { if s in st.mem then st.mem[s] else Sub("", 0) }

  function SetRefs(st: State, s: Addr, n: nat): State {
    if s in st.mem then st.(mem := st.mem[s := st.mem[s].(refs := n)]) else st
  }

  predicate Locked(pc: Pc) {
    pc.Reading? || pc.Missed? || (pc.Loading? && !pc.exclusive) || (pc.Swapping? && !pc.exclusive) || (pc.Found? && !pc.exclusive)
  }

  predicate Exclusive(pc: Pc) {
    pc.Writing? || pc.Creating? || (pc.Loading? && pc.exclusive) || (pc.Swapping? && pc.exclusive)
    || (pc.Found? && pc.exclusive) || pc.Removing? || pc.Removed?
  }

  /** The subscriptions whose memory the next action of a thread reads, writes or frees.  A
      lookup compares keys, so it may read the memory of every key in the table. */
  function Touches(st: State, pc: Pc): set<Addr> {
    match pc
    case Reading(_, _) | Writing(_) | Creating(_) => KeyOwners(st)
    case Removing(s) => KeyOwners(st) + {s}
    case Loading(_, _, s, _) => {s}
    case Swapping(_, _, s, _, _) => {s}
    case Freeing(s) => {s}
    case _ => {}
  }

  function KeyOwners(st: State): set<Addr> { set k | k in st.table :: st.table[k].owner }

  // ----- actions -----

  /** A thread calls an operation, or takes its next action; `spare` is the memory that the
      allocator would hand out. */
  datatype Action =
    | Get(key: Key, create: bool)
    | Ref(sub: Addr)
    | Unref(sub: Addr)
    | Next(spare: Addr)

  predicate Enabled(st: State, t: Thread, a: Action) {
    var pc := PcOf(st, t);
    match a
    case Get(_, _) => pc.Out?
    case Ref(s) => pc.Out? && s in st.held
    case Unref(s) => pc.Out? && s in st.held
    case Next(spare) =>
      match pc
      case Out => false
      case WantRead(_, _) => st.writer.None?
      case WantWrite(_) => st.writer.None? && st.readers == {}
      case Zeroed(_) => st.writer.None? && st.readers == {}
      case Creating(_) => spare !in st.mem
      case _ => true
  }

  function Apply(st: State, t: Thread, a: Action): State
    requires Enabled(st, t, a)
  {
    match a
    case Get(key, create) => Goto(st, t, WantRead(key, create))
    case Ref(s) => Goto(SetRefs(st, s, SubAt(st, s).refs + 1), t, Out).(held := st.held + multiset{s})
    case Unref(s) =>
      var n := if SubAt(st, s).refs > 0 then SubAt(st, s).refs - 1 else 0;
      Goto(SetRefs(st, s, n), t, if n == 0 then Zeroed(s) else Out).(held := st.held - multiset{s})
    case Next(spare) => Advance(st, t, spare)
  }

  function Advance(st: State, t: Thread, spare: Addr): State
    requires Enabled(st, t, Next(spare))
  {
    match PcOf(st, t)
    case WantRead(key, create) => Goto(st.(readers := st.readers + {t}), t, Reading(key, create))
    case Reading(key, create) =>
      Goto(st, t, if key in st.table then Loading(key, create, st.table[key].sub, false) else Missed(key, create))
    case Loading(key, create, s, ex) => Goto(st, t, Tried(key, create, s, SubAt(st, s).refs, ex))
    case Swapping(key, create, s, val, ex) =>
      var n := SubAt(st, s).refs;
      if n == val then Goto(SetRefs(st, s, n + 1), t, Found(s, ex)).(held := st.held + multiset{s})
      else Goto(st, t, Tried(key, create, s, n, ex))
    case Missed(key, create) => Goto(st.(readers := st.readers - {t}), t, if create then WantWrite(key) else Out)
    case Found(s, ex) => Goto(if ex then st.(writer := None) else st.(readers := st.readers - {t}), t, Out)
    case WantWrite(key) => Goto(st.(writer := Some(t)), t, Writing(key))
    case Writing(key) =>
      Goto(st, t, if key in st.table then Loading(key, true, st.table[key].sub, true) else Creating(key))
    case Creating(key) =>
      Goto(st.(mem := st.mem[spare := Sub(key, 1)], table := st.table[key := Entry(spare, spare)],
               held := st.held + multiset{spare}), t, Found(spare, true))
    case Zeroed(s) => Goto(st.(writer := Some(t)), t, Removing(s))
    case Removing(s) =>
      var key := SubAt(st, s).extra;
      Goto(if key in st.table && st.table[key].sub == s then st.(table := st.table - {key}) else st, t, Removed(s))
    case Removed(s) => Goto(st.(writer := None), t, Freeing(s))
    case Freeing(s) => Goto(st.(mem := st.mem - {s}), t, Out)
    case Out => st
  }

  /** After reading the count: a count of 0 cannot be raised, any other is worth a swap. */
  function Tried(key: Key, create: bool, s: Addr, val: nat, exclusive: bool): Pc {
    if val > 0 then Swapping(key, create, s, val, exclusive)
    else if exclusive then Creating(key)
    else Missed(key, create)
  }

  // ----- the invariant -----

  ghost predicate LockOk(st: State) {
    && (forall t {:trigger PcOf(st, t)} :: Locked(PcOf(st, t)) <==> t in st.readers)
    && (forall t {:trigger PcOf(st, t)} :: Exclusive(PcOf(st, t)) <==> st.writer == Some(t))
    && (st.writer.Some? ==> st.readers == {})
  }

  ghost predicate TableOk(st: State) {
    && (forall k {:trigger st.table[k]} :: k in st.table ==>
          var e := st.table[k];
          e.owner == e.sub && e.sub in st.mem && st.mem[e.sub].extra == k)
    && (forall s {:trigger s in st.mem} :: s in st.mem && st.mem[s].refs > 0 ==> Listed(st, s))
  }

  /** The table leads to `s`. */
  ghost predicate Listed(st: State, s: Addr)
    requires s in st.mem
  {
    var k := st.mem[s].extra;
    k in st.table && st.table[k].sub == s
  }

  ghost predicate CountsOk(st: State) {
    && (forall s {:trigger s in st.mem} :: s in st.mem ==> st.mem[s].refs == st.held[s])
    && (forall s {:trigger st.held[s]} :: s in st.held ==> s in st.mem)
  }

  /** The subscription a thread is about to take apart. */
  function Doomed(pc: Pc): Option<Addr> {
    match pc
    case Zeroed(s) => Some(s)
    case Removing(s) => Some(s)
    case Removed(s) => Some(s)
    case Freeing(s) => Some(s)
    case _ => None
  }

  ghost predicate PcOk(st: State, t: Thread) {
    var pc := PcOf(st, t);
    && (Doomed(pc).Some? ==> Doomed(pc).value in st.mem && st.mem[Doomed(pc).value].refs == 0)
    && (pc.Loading? ==> pc.key in st.table && st.table[pc.key].sub == pc.sub)
    && (pc.Swapping? ==> pc.key in st.table && st.table[pc.key].sub == pc.sub && pc.val > 0)
    && (pc.Creating? && pc.key in st.table ==> SubAt(st, st.table[pc.key].sub).refs == 0)
    && (pc.Removed? || pc.Freeing? ==> !(pc.sub in st.mem && Listed(st, pc.sub)))
  }

  /** Every subscription without references is being taken apart by exactly one thread. */
  ghost predicate DoomOk(st: State) {
    && (forall t, u {:trigger PcOf(st, t), PcOf(st, u)} :: t != u && Doomed(PcOf(st, t)).Some? ==> Doomed(PcOf(st, t)) != Doomed(PcOf(st, u)))
    && (forall s {:trigger s in st.mem} :: s in st.mem && st.mem[s].refs == 0 ==> exists t :: Doomed(PcOf(st, t)) == Some(s))
  }

  ghost predicate Inv(st: State) {
    && LockOk(st) && TableOk(st) && CountsOk(st) && DoomOk(st)
    && (forall t {:trigger PcOk(st, t)} :: PcOk(st, t))
  }

  lemma InitInv()
    ensures Inv(Init())
  {
  }

  /** `r` is `st` with at most the position of `t` and the lock changed. */
  ghost predicate OnlyMoves(st: State, r: State, t: Thread) {
    && r.mem == st.mem && r.table == st.table && r.held == st.held
    && (forall u {:trigger PcOf(r, u)} :: u != t ==> PcOf(r, u) == PcOf(st, u))
  }

  /** Steps that leave memory, table and handles alone. */
  lemma MoveKeeps(st: State, r: State, t: Thread)
    requires Inv(st) && LockOk(r) && OnlyMoves(st, r, t) && PcOk(r, t)
    requires Doomed(PcOf(r, t)) == Doomed(PcOf(st, t))
    ensures Inv(r)
  {
    forall u: Thread ensures PcOk(r, u) { assert PcOk(st, u); }
    forall s | s in r.mem && r.mem[s].refs == 0 ensures exists u :: Doomed(PcOf(r, u)) == Some(s) {
      var u :| Doomed(PcOf(st, u)) == Some(s);
      assert Doomed(PcOf(r, u)) == Some(s);
    }
  }

  /** A thread keeps, takes or drops the lock according to where it goes. */
  lemma LockMoves(st: State, t: Thread, a: Action)
    requires Inv(st) && Enabled(st, t, a)
    ensures LockOk(Apply(st, t, a))
  {
    var r := Apply(st, t, a);
    assert OwnsLock(st, t);
    if a.Next? {
      var pc := PcOf(st, t);
      if pc.Loading? || pc.Swapping? {
        TryLock(st, t, a.spare);
      } else if pc.Reading? || pc.Writing? || pc.Creating? || pc.Removing? {
        StayLock(st, t, a.spare);
      } else {
        PassLock(st, t, a.spare);
      }
    } else {
      CallLock(st, t, a);
    }
    forall u: Thread
      ensures Locked(PcOf(r, u)) <==> u in r.readers
      ensures Exclusive(PcOf(r, u)) <==> r.writer == Some(u)
    {
      assert u != t ==> PcOf(r, u) == PcOf(st, u);
    }
  }

  /** How the lock may change hands when `t` moves. */
  ghost predicate LockEffect(st: State, r: State, t: Thread) {
    var pc := PcOf(r, t);
    && r.pcs == st.pcs[t := pc]
    && r.readers == (if Locked(pc) then st.readers + {t} else st.readers - {t})
    && r.writer == (if Exclusive(pc) then Some(t) else if st.writer == Some(t) then None else st.writer)
    && (Locked(pc) && t !in st.readers ==> st.writer.None?)
    && (Exclusive(pc) && st.writer != Some(t) ==> st.writer.None? && st.readers == {})
  }

  ghost predicate OwnsLock(st: State, t: Thread) {
    && (Locked(PcOf(st, t)) <==> t in st.readers)
    && (Exclusive(PcOf(st, t)) <==> st.writer == Some(t))
  }

  lemma CallLock(st: State, t: Thread, a: Action)
    requires Enabled(st, t, a) && !a.Next? && OwnsLock(st, t)
    ensures LockEffect(st, Apply(st, t, a), t)
  {
  }

  lemma TryLock(st: State, t: Thread, spare: Addr)
    requires Enabled(st, t, Next(spare)) && OwnsLock(st, t)
    requires var pc := PcOf(st, t); pc.Loading? || pc.Swapping?
    ensures LockEffect(st, Advance(st, t, spare), t)
  {
  }

  lemma StayLock(st: State, t: Thread, spare: Addr)
    requires Enabled(st, t, Next(spare)) && OwnsLock(st, t)
    requires var pc := PcOf(st, t); pc.Reading? || pc.Writing? || pc.Creating? || pc.Removing?
    ensures LockEffect(st, Advance(st, t, spare), t)
  {
  }

  lemma PassLock(st: State, t: Thread, spare: Addr)
    requires Enabled(st, t, Next(spare)) && OwnsLock(st, t)
    requires var pc := PcOf(st, t); !(pc.Reading? || pc.Loading? || pc.Swapping? || pc.Writing? || pc.Creating? || pc.Removing?)
    ensures LockEffect(st, Advance(st, t, spare), t)
  {
  }

  lemma QuietKeeps(st: State, t: Thread, a: Action)
    requires Inv(st) && Enabled(st, t, a)
    requires a.Get? || (a.Next? && !(PcOf(st, t).Swapping? || PcOf(st, t).Creating? || PcOf(st, t).Removing? || PcOf(st, t).Freeing?))
    ensures Inv(Apply(st, t, a))
  {
    LockMoves(st, t, a);
    assert PcOk(st, t);
    MoveKeeps(st, Apply(st, t, a), t);
  }

  lemma SwapKeeps(st: State, t: Thread, a: Action)
    requires Inv(st) && Enabled(st, t, a) && a.Next? && PcOf(st, t).Swapping?
    ensures Inv(Apply(st, t, a))
  {
    LockMoves(st, t, a);
    assert PcOk(st, t);
    var r := Apply(st, t, a);
    var s := PcOf(st, t).sub;
    if SubAt(st, s).refs != PcOf(st, t).val {
      MoveKeeps(st, r, t);
    } else {
      RaiseKeeps(st, r, t, s);
    }
  }

  /** One more reference on a subscription that has some. */
  lemma RaiseKeeps(st: State, r: State, t: Thread, s: Addr)
    requires Inv(st) && LockOk(r) && s in st.mem && st.mem[s].refs > 0
    requires r.mem == SetRefs(st, s, st.mem[s].refs + 1).mem && r.table == st.table && r.held == st.held + multiset{s}
    requires forall u {:trigger PcOf(r, u)} :: u != t ==> PcOf(r, u) == PcOf(st, u)
    requires Doomed(PcOf(st, t)).None? && (PcOf(r, t) == PcOf(st, t) || PcOf(r, t).Found?)
    ensures Inv(r)
  {
    forall u: Thread ensures PcOk(r, u) { assert PcOk(st, u); }
    forall x | x in r.mem && r.mem[x].refs == 0 ensures exists u :: Doomed(PcOf(r, u)) == Some(x) {
      assert x in st.mem;
      var u :| Doomed(PcOf(st, u)) == Some(x);
      assert Doomed(PcOf(r, u)) == Some(x);
    }
    forall x | x in r.mem && r.mem[x].refs > 0 ensures Listed(r, x) {
      assert x in st.mem;
    }
    assert forall x {:trigger x in r.mem} :: x in r.mem ==> x in st.mem;
  }

  lemma RefKeeps(st: State, t: Thread, a: Action)
    requires Inv(st) && Enabled(st, t, a) && a.Ref?
    ensures Inv(Apply(st, t, a))
  {
    LockMoves(st, t, a);
    assert st.held[a.sub] > 0;
    RaiseKeeps(st, Apply(st, t, a), t, a.sub);
  }

  lemma UnrefKeeps(st: State, t: Thread, a: Action)
    requires Inv(st) && Enabled(st, t, a) && a.Unref?
    ensures Inv(Apply(st, t, a))
  {
    LockMoves(st, t, a);
    var r := Apply(st, t, a);
    var s := a.sub;
    assert st.held[s] > 0;
    assert s in st.mem && st.mem[s].refs == st.held[s];
    assert forall u {:trigger PcOf(r, u)} :: u != t ==> PcOf(r, u) == PcOf(st, u);
    LowerCounts(st, r, s);
    if st.mem[s].refs > 1 {
      LowerKeeps(st, r, t, s);
    } else {
      ZeroKeeps(st, r, t, s);
    }
  }

  lemma LowerCounts(st: State, r: State, s: Addr)
    requires TableOk(st) && CountsOk(st) && s in st.mem && st.held[s] > 0
    requires r.mem == SetRefs(st, s, st.mem[s].refs - 1).mem && r.table == st.table && r.held == st.held - multiset{s}
    ensures TableOk(r) && CountsOk(r)
  {
    forall x | x in r.mem && r.mem[x].refs > 0 ensures Listed(r, x) {
      assert x in st.mem;
    }
    assert forall x {:trigger x in r.mem} :: x in r.mem ==> x in st.mem;
  }

  /** One reference less, and some left. */
  lemma LowerKeeps(st: State, r: State, t: Thread, s: Addr)
    requires Inv(st) && LockOk(r) && TableOk(r) && CountsOk(r) && s in st.mem && st.mem[s].refs > 1
    requires r.mem == SetRefs(st, s, st.mem[s].refs - 1).mem && r.table == st.table
    requires forall u {:trigger PcOf(r, u)} :: PcOf(r, u) == PcOf(st, u)
    ensures Inv(r)
  {
    forall u: Thread ensures PcOk(r, u) { assert PcOk(st, u); }
    forall x | x in r.mem && r.mem[x].refs == 0 ensures exists u :: Doomed(PcOf(r, u)) == Some(x) {
      assert x in st.mem;
      var u :| Doomed(PcOf(st, u)) == Some(x);
      assert Doomed(PcOf(r, u)) == Some(x);
    }
  }

  /** The last reference: whoever dropped it takes the subscription apart. */
  lemma ZeroKeeps(st: State, r: State, t: Thread, s: Addr)
    requires Inv(st) && LockOk(r) && TableOk(r) && CountsOk(r) && s in st.mem && st.mem[s].refs == 1
    requires r.mem == SetRefs(st, s, 0).mem && r.table == st.table
    requires PcOf(st, t).Out? && PcOf(r, t) == Zeroed(s)
    requires forall u {:trigger PcOf(r, u)} :: u != t ==> PcOf(r, u) == PcOf(st, u)
    ensures Inv(r)
  {
    forall u: Thread ensures PcOk(r, u) && (Doomed(PcOf(r, u)) == Some(s) ==> u == t) { assert PcOk(st, u); }
    forall x | x in r.mem && r.mem[x].refs == 0 ensures exists u :: Doomed(PcOf(r, u)) == Some(x) {
      if x == s {
        assert Doomed(PcOf(r, t)) == Some(x);
      } else {
        assert x in st.mem;
        var u :| Doomed(PcOf(st, u)) == Some(x);
        assert Doomed(PcOf(r, u)) == Some(x);
      }
    }
  }

  lemma CreateKeeps(st: State, t: Thread, a: Action)
    requires Inv(st) && Enabled(st, t, a) && a.Next? && PcOf(st, t).Creating?
    ensures Inv(Apply(st, t, a))
  {
    LockMoves(st, t, a);
    var r := Apply(st, t, a);
    assert PcOk(st, t);
    assert forall u {:trigger PcOf(r, u)} :: u != t ==> PcOf(r, u) == PcOf(st, u);
    forall u: Thread ensures PcOk(r, u) { assert PcOk(st, u); }
    forall x | x in r.mem && r.mem[x].refs == 0 ensures exists u :: Doomed(PcOf(r, u)) == Some(x) {
      assert x in st.mem;
      var u :| Doomed(PcOf(st, u)) == Some(x);
      assert Doomed(PcOf(r, u)) == Some(x);
    }
    forall x | x in r.mem && r.mem[x].refs > 0 ensures Listed(r, x) {
      assert x != a.spare ==> x in st.mem && Listed(st, x);
    }
  }

  lemma RemoveKeeps(st: State, t: Thread, a: Action)
    requires Inv(st) && Enabled(st, t, a) && a.Next? && PcOf(st, t).Removing?
    ensures Inv(Apply(st, t, a))
  {
    LockMoves(st, t, a);
    var r := Apply(st, t, a);
    assert PcOk(st, t);
    assert forall u {:trigger PcOf(r, u)} :: u != t ==> PcOf(r, u) == PcOf(st, u);
    forall u: Thread ensures PcOk(r, u) { assert PcOk(st, u); }
    forall x | x in r.mem && r.mem[x].refs == 0 ensures exists u :: Doomed(PcOf(r, u)) == Some(x) {
      assert x in st.mem;
      var u :| Doomed(PcOf(st, u)) == Some(x);
      assert Doomed(PcOf(r, u)) == Some(x);
    }
    forall x | x in r.mem && r.mem[x].refs > 0 ensures Listed(r, x) {
      assert x in st.mem && Listed(st, x);
    }
  }

  lemma FreeKeeps(st: State, t: Thread, a: Action)
    requires Inv(st) && Enabled(st, t, a) && a.Next? && PcOf(st, t).Freeing?
    ensures Inv(Apply(st, t, a))
  {
    LockMoves(st, t, a);
    var r := Apply(st, t, a);
    assert PcOk(st, t);
    assert forall u {:trigger PcOf(r, u)} :: u != t ==> PcOf(r, u) == PcOf(st, u);
    forall u: Thread ensures PcOk(r, u) { assert PcOk(st, u); }
    forall x | x in r.mem && r.mem[x].refs == 0 ensures exists u :: Doomed(PcOf(r, u)) == Some(x) {
      assert x in st.mem;
      var u :| Doomed(PcOf(st, u)) == Some(x);
      assert Doomed(PcOf(r, u)) == Some(x);
    }
    forall x | x in r.mem && r.mem[x].refs > 0 ensures Listed(r, x) {
      assert x in st.mem && Listed(st, x);
    }
  }

  /** Every action of every thread keeps the invariant. */
  lemma InvKept(st: State, t: Thread, a: Action)
    requires Inv(st) && Enabled(st, t, a)
    ensures Inv(Apply(st, t, a))
  {
    if a.Ref? {
      RefKeeps(st, t, a);
    } else if a.Unref? {
      UnrefKeeps(st, t, a);
    } else if a.Get? {
      QuietKeeps(st, t, a);
    } else {
      match PcOf(st, t)
      case Swapping(_, _, _, _, _) => SwapKeeps(st, t, a);
      case Creating(_) => CreateKeeps(st, t, a);
      case Removing(_) => RemoveKeeps(st, t, a);
      case Freeing(_) => FreeKeeps(st, t, a);
      case _ => QuietKeeps(st, t, a);
    }
  }

  // ----- nobody waits for ever -----

  lemma FreeMemory(mem: set<Addr>) returns (spare: Addr)
    ensures forall a: Addr :: a in mem ==> a < spare
    decreases |mem|
  {
    if a: Addr :| a in mem {
      var b := FreeMemory(mem - {a});
      spare := if a < b then b else a + 1;
      assert forall x: Addr :: x in mem && x != a ==> x in mem - {a};
    } else {
      spare := 0;
    }
  }

  lemma OneOf<T>(s: set<T>) returns (x: T)
    requires s != {}
    ensures x in s
  {
    x :| x in s;
  }

  /** As long as a thread is inside an operation, some thread can take its next action. */
  lemma NoDeadlock(st: State, t: Thread) returns (u: Thread, spare: Addr)
    requires Inv(st) && !PcOf(st, t).Out?
    ensures Enabled(st, u, Next(spare))
  {
    spare := FreeMemory(st.mem.Keys);
    if st.writer.Some? {
      u := st.writer.value;
      assert Exclusive(PcOf(st, u));
    } else if st.readers != {} {
      u := OneOf(st.readers);
      assert Locked(PcOf(st, u));
    } else {
      u := t;
      assert !Locked(PcOf(st, u)) && !Exclusive(PcOf(st, u));
    }
  }

  // ----- all runs -----

  datatype Step = Step(t: Thread, a: Action)

  ghost predicate IsRun(sts: seq<State>, steps: seq<Step>) {
    && |sts| == |steps| + 1 && sts[0] == Init()
    && forall i {:trigger steps[i]} :: 0 <= i < |steps| ==>
         Enabled(sts[i], steps[i].t, steps[i].a) && sts[i + 1] == Apply(sts[i], steps[i].t, steps[i].a)
  }

  lemma {:induction false} RunKeeps(sts: seq<State>, steps: seq<Step>, k: nat)
    requires IsRun(sts, steps) && k < |sts|
    ensures Inv(sts[k])
  {
    if k == 0 {
      InitInv();
    } else {
      RunKeeps(sts, steps, k - 1);
      InvKept(sts[k - 1], steps[k - 1].t, steps[k - 1].a);
    }
  }

  /** The count of a subscription in memory is the number of handles held on it, handles are
      held on nothing else, and a subscription with handles is the one its key leads to, so
      that there is at most one per key. */
  lemma HandlesCounted(sts: seq<State>, steps: seq<Step>, k: nat, s: Addr)
    requires IsRun(sts, steps) && k < |sts|
    ensures s in sts[k].mem ==> sts[k].mem[s].refs == sts[k].held[s]
    ensures sts[k].held[s] > 0 ==>
              && s in sts[k].mem && Listed(sts[k], s)
              && forall x <- sts[k].mem :: x != s && sts[k].held[x] > 0 ==> sts[k].mem[x].extra != sts[k].mem[s].extra
  {
    RunKeeps(sts, steps, k);
    var st := sts[k];
    if st.held[s] > 0 {
      forall x | x in st.mem && st.held[x] > 0
        ensures st.mem[x].refs > 0 && Listed(st, x)
      {
      }
    }
  }

  /** No thread ever reads, writes or frees the memory of a freed subscription, be it its own
      or the key of a table entry; handles point to live memory. */
  lemma NothingFreedIsTouched(sts: seq<State>, steps: seq<Step>, k: nat, t: Thread)
    requires IsRun(sts, steps) && k < |sts|
    ensures Touches(sts[k], PcOf(sts[k], t)) <= sts[k].mem.Keys
    ensures forall s <- sts[k].held :: s in sts[k].mem
  {
    RunKeeps(sts, steps, k);
    var st := sts[k];
    assert PcOk(st, t);
    forall k | k in st.table ensures st.table[k].owner in st.mem {
      assert st.table[k].owner == st.table[k].sub;
    }
  }

  /** A count of 0 is final: it is never raised again, and the subscription is never handed
      out, until its memory is freed. */
  lemma ZeroIsFinal(sts: seq<State>, steps: seq<Step>, k: nat, s: Addr)
    requires IsRun(sts, steps) && k < |steps|
    requires s in sts[k].mem && sts[k].mem[s].refs == 0 && s in sts[k + 1].mem
    ensures sts[k + 1].mem[s].refs == 0 && sts[k + 1].held[s] == 0
  {
    RunKeeps(sts, steps, k);
    assert PcOk(sts[k], steps[k].t);
    assert sts[k].held[s] == 0;
    ZeroStays(sts[k], steps[k].t, steps[k].a, s);
    RunKeeps(sts, steps, k + 1);
  }

  lemma ZeroStays(st: State, t: Thread, a: Action, s: Addr)
    requires Enabled(st, t, a) && PcOk(st, t) && s in st.mem && st.mem[s].refs == 0 && st.held[s] == 0
    ensures s in Apply(st, t, a).mem ==> Apply(st, t, a).mem[s].refs == 0
  {
  }

  /** Each subscription is taken apart by one thread only, so it is freed once. */
  lemma FreedOnce(sts: seq<State>, steps: seq<Step>, k: nat, t: Thread, u: Thread)
    requires IsRun(sts, steps) && k < |sts| && t != u
    requires Doomed(PcOf(sts[k], t)).Some? && Doomed(PcOf(sts[k], u)).Some?
    ensures Doomed(PcOf(sts[k], t)) != Doomed(PcOf(sts[k], u))
  {
    RunKeeps(sts, steps, k);
  }
}
