/**
 The callbacks a client may answer: four slots, handles that name a slot and a 16-bit number,
 and the data that comes with each callback.
 */
module CallbackModel {
  import opened Options

  /** Something to be freed: data that came with a function to free it. */
  type Data = Option<nat>

  /** A callback: its 16-bit number, the data it owns, when it was created, and, to tell it from
      all others, how many had been created when it was. */
  datatype Callback = Callback(id: nat, fn: nat, data: Data, created: int, serial: nat)

  const SLOTS: nat := 4

  /** `slots` and `lastId` are the client's; the rest is the history of what has been done:
      handles issued, callbacks that are running, callbacks that have been started, data freed and
      data handed over. */
  datatype State = State(slots: seq<Option<Callback>>, lastId: nat, issued: seq<nat>, running: seq<Callback>,
                         started: seq<nat>, freed: seq<nat>, given: seq<nat>)

  function Initial(): State {
    State([None, None, None, None], 0, [], [], [], [], [])
  }

  // ----- the operations -----

  function Taken(data: Data): seq<nat> {
    match data case None => [] case Some(d) => [d]
  }

  function Release(st: State, data: Data): State {
    match data case None => st case Some(d) => st.(freed := st.freed + [d])
  }

  /** Empties a slot and frees its data. */
  function FreeSlot(st: State, i: nat): State
    requires i < |st.slots|
  {
    if st.slots[i].None? then st else Release(st, st.slots[i].value.data).(slots := st.slots[i := None])
  }

  /** The first empty slot, or none. */
  function Empty(slots: seq<Option<Callback>>, from: nat): (i: nat)
    requires from <= |slots|
    ensures from <= i <= |slots| && (i < |slots| ==> slots[i].None?)
    ensures forall j :: from <= j < i ==> slots[j].Some?
    decreases |slots| - from
  {
    if from == |slots| || slots[from].None? then from else Empty(slots, from + 1)
  }

  /** A 16-bit count that leaves out 0. */
  function NextId(id: nat): nat { var n := (id + 1) % 0x1_0000; if n < 1 then 1 else n }

  function Handle(i: nat, id: nat): nat { i * 0x1_0000 + id }

  /** A callback goes to an empty slot, or to slot `evict` if there is none. */
  function New(st: State, fn: Option<nat>, data: Data, evict: nat, now: int): State
    requires |st.slots| == SLOTS && evict < SLOTS
  {
    var given := st.(given := st.given + Taken(data));
    if fn.None? then Release(given, data) else
      var empty := Empty(st.slots, 0);
      var i := if empty == SLOTS then evict else empty;
      var id := NextId(st.lastId);
      var cb := Callback(id, fn.value, data, now, |st.issued| + 1);
      var next := FreeSlot(given, i);
      next.(slots := next.slots[i := Some(cb)], lastId := id, issued := st.issued + [Handle(i, id)])
  }

  /** A handle of 64 bits names a slot in 16 bits and a number in 16 bits. */
  function Found(st: State, h: nat): Option<nat> {
    var slot, id := h / 0x1_0000 % 0x1_0000, h % 0x1_0000;
    if slot < |st.slots| && st.slots[slot].Some? && st.slots[slot].value.id == id then Some(slot) else None
  }

  /** The callback leaves its slot, and runs. */
  function Start(st: State, h: nat): State {
    match Found(st, h)
    case None => st
    case Some(i) =>
      var cb := st.slots[i].value;
      st.(slots := st.slots[i := None], running := st.running + [cb], started := st.started + [cb.serial])
  }

  /** The callback has run. */
  function Finish(st: State, k: nat): State
    requires k < |st.running|
  {
    Release(st, st.running[k].data).(running := st.running[..k] + st.running[k + 1..])
  }

  predicate TooOld(slot: Option<Callback>, before: int) { slot.Some? && slot.value.created < before }

  /** Frees the first `n` slots as far as they are older than `before`. */
  function Prune(st: State, before: int, n: nat): State
    requires n <= |st.slots|
    ensures |Prune(st, before, n).slots| == |st.slots|
  {
    if n == 0 then st else
      var next := Prune(st, before, n - 1);
      if TooOld(next.slots[n - 1], before) then FreeSlot(next, n - 1) else next
  }

  function FreeAll(st: State, n: nat): State
    requires n <= |st.slots|
    ensures |FreeAll(st, n).slots| == |st.slots|
  {
    if n == 0 then st else FreeSlot(FreeAll(st, n - 1), n - 1)
  }

  /** A reply that may carry a callback: only a successful one that is wanted does. */
  function Reply(st: State, clientCb: nat, ok: bool, fn: Option<nat>, data: Data, evict: nat, now: int): State
    requires |st.slots| == SLOTS && evict < SLOTS
  {
    New(st, if clientCb == 0 || !ok then None else fn, data, evict, now)
  }

  // ----- runs -----

  datatype Step =
    | DoNew(fn: Option<nat>, data: Data, evict: nat, now: int)
    | DoReply(clientCb: nat, ok: bool, fn: Option<nat>, data: Data, evict: nat, now: int)
    | DoStart(handle: nat)
    | DoFinish(k: nat)
    | DoPrune(before: int)
    /** The client is freed: nothing runs any more, because what runs holds on to it. */
    | DoFree

  predicate Enabled(st: State, s: Step) {
    match s
    case DoNew(_, _, evict, _) => evict < SLOTS
    case DoReply(_, _, _, _, evict, _) => evict < SLOTS
    case DoFinish(k) => k < |st.running|
    case DoFree => st.running == []
    case _ => true
  }

  function Apply(st: State, s: Step): State
    requires |st.slots| == SLOTS && Enabled(st, s)
  {
    match s
    case DoNew(fn, data, evict, now) => New(st, fn, data, evict, now)
    case DoReply(clientCb, ok, fn, data, evict, now) => Reply(st, clientCb, ok, fn, data, evict, now)
    case DoStart(handle) => Start(st, handle)
    case DoFinish(k) => Finish(st, k)
    case DoPrune(before) => Prune(st, before, SLOTS)
    case DoFree => FreeAll(st, SLOTS)
  }

  // ----- what every step keeps -----

  /** The number of the n-th callback. */
  function IdOf(n: nat): nat { if n == 0 then 0 else (n - 1) % 0xffff + 1 }

  /** A callback in a slot is the one that the slot's handle was issued for. */
  predicate SlotOk(st: State, i: nat) {
    i < |st.slots| && st.slots[i].Some? ==>
      var cb := st.slots[i].value;
      && 1 <= cb.serial <= |st.issued| && cb.id == IdOf(cb.serial)
      && st.issued[cb.serial - 1] == Handle(i, cb.id)
      && cb.serial !in st.started
  }

  predicate HandleOk(st: State, n: nat) {
    n < |st.issued| ==> st.issued[n] % 0x1_0000 == IdOf(n + 1) && st.issued[n] / 0x1_0000 < SLOTS
  }

  predicate Distinct(s: seq<nat>) {
    forall i, j | 0 <= i < j < |s| :: s[i] != s[j]
  }

  function Count(s: seq<nat>, d: nat): nat {
    if s == [] then 0 else Count(s[..|s| - 1], d) + if s[|s| - 1] == d then 1 else 0
  }

  function Holds(data: Data, d: nat): nat { if data == Some(d) then 1 else 0 }

  function SlotHolds(slot: Option<Callback>, d: nat): nat {
    match slot case None => 0 case Some(cb) => Holds(cb.data, d)
  }

  function SlotsHold(slots: seq<Option<Callback>>, d: nat): nat
    requires |slots| == SLOTS
  {
    SlotHolds(slots[0], d) + SlotHolds(slots[1], d) + SlotHolds(slots[2], d) + SlotHolds(slots[3], d)
  }

  function RunningHold(cbs: seq<Callback>, d: nat): nat {
    if cbs == [] then 0 else RunningHold(cbs[..|cbs| - 1], d) + Holds(cbs[|cbs| - 1].data, d)
  }

  /** Data handed over has been freed, or is held by one slot or by a running callback. */
  predicate DataOk(st: State, d: nat) {
    |st.slots| == SLOTS && Count(st.freed, d) + SlotsHold(st.slots, d) + RunningHold(st.running, d) == Count(st.given, d)
  }

  ghost predicate SlotsInv(st: State) {
    && |st.slots| == SLOTS && st.lastId == IdOf(|st.issued|)
    && (forall i: nat {:trigger SlotOk(st, i)} :: SlotOk(st, i))
    && (forall n: nat {:trigger HandleOk(st, n)} :: HandleOk(st, n))
    && Distinct(st.started) && (forall s <- st.started :: s <= |st.issued|)
  }

  ghost predicate DataInv(st: State) { forall d: nat {:trigger DataOk(st, d)} :: DataOk(st, d) }

  ghost predicate Inv(st: State) { SlotsInv(st) && DataInv(st) }

  lemma HandleParts(i: nat, id: nat)
    requires id < 0x1_0000
    ensures Handle(i, id) / 0x1_0000 == i && Handle(i, id) % 0x1_0000 == id
  {
  }

  lemma IdRange(n: nat)
    ensures IdOf(n) <= 0xffff && (n > 0 ==> IdOf(n) >= 1) && NextId(IdOf(n)) == IdOf(n + 1)
  {
    if n > 0 {
      var q, r := (n - 1) / 0xffff, (n - 1) % 0xffff;
      assert n - 1 == 0xffff * q + r;
      if r == 0xfffe {
        assert n == 0xffff * (q + 1);
      } else {
        assert n == 0xffff * q + (r + 1);
      }
    }
  }

  /** The same number comes back exactly after a multiple of 65535 callbacks. */
  lemma SameId(m: nat, n: nat)
    requires 0 < m < n
    ensures IdOf(m) == IdOf(n) <==> (n - m) % 0xffff == 0
  {
    var p, q, d := (m - 1) / 0xffff, (n - 1) / 0xffff, (n - m) / 0xffff;
    if IdOf(m) == IdOf(n) {
      assert n - m == 0xffff * (q - p);
    }
    if (n - m) % 0xffff == 0 {
      assert n - 1 == 0xffff * (p + d) + (m - 1) % 0xffff;
    }
  }

  // ----- the data -----

  lemma SlotSet(slots: seq<Option<Callback>>, i: nat, x: Option<Callback>, d: nat)
    requires |slots| == SLOTS && i < SLOTS
    ensures SlotsHold(slots[i := x], d) + SlotHolds(slots[i], d) == SlotsHold(slots, d) + SlotHolds(x, d)
  {
  }

  lemma RunningMore(cbs: seq<Callback>, cb: Callback, d: nat)
    ensures RunningHold(cbs + [cb], d) == RunningHold(cbs, d) + Holds(cb.data, d)
  {
    assert (cbs + [cb])[..|cbs|] == cbs;
  }

  lemma {:induction false} RunningCut(cbs: seq<Callback>, k: nat, d: nat)
    requires k < |cbs|
    ensures RunningHold(cbs[..k] + cbs[k + 1..], d) + Holds(cbs[k].data, d) == RunningHold(cbs, d)
  {
    var n := |cbs| - 1;
    var front := cbs[..n];
    if k == n {
      assert cbs[..k] + cbs[k + 1..] == front;
    } else {
      RunningCut(front, k, d);
      assert cbs[..k] + cbs[k + 1..] == (front[..k] + front[k + 1..]) + [cbs[n]];
      RunningMore(front[..k] + front[k + 1..], cbs[n], d);
    }
  }

  lemma CountMore(s: seq<nat>, data: Data, d: nat)
    ensures Count(s + Taken(data), d) == Count(s, d) + Holds(data, d)
  {
    assert s + [] == s;
    assert data.Some? ==> (s + Taken(data))[..|s|] == s;
  }

  lemma ReleaseIs(st: State, data: Data)
    ensures Release(st, data) == st.(freed := st.freed + Taken(data))
  {
    assert st.freed + [] == st.freed;
  }

  // ----- every step keeps the invariant -----

  /** Slots may be emptied. */
  lemma SlotsInvLess(st: State, next: State, i: nat)
    requires SlotsInv(st) && i < SLOTS && next.slots == st.slots[i := None] && next.lastId == st.lastId
    requires next.issued == st.issued && next.started == st.started
    ensures SlotsInv(next)
  {
    forall j: nat ensures SlotOk(next, j) { assert SlotOk(st, j); }
    forall n: nat ensures HandleOk(next, n) { assert HandleOk(st, n); }
  }

  lemma SlotsInvSame(st: State, next: State)
    requires SlotsInv(st) && next.slots == st.slots && next.lastId == st.lastId
    requires next.issued == st.issued && next.started == st.started
    ensures SlotsInv(next)
  {
    forall j: nat ensures SlotOk(next, j) { assert SlotOk(st, j); }
    forall n: nat ensures HandleOk(next, n) { assert HandleOk(st, n); }
  }

  lemma FreeSlotKeeps(st: State, i: nat)
    requires Inv(st) && i < SLOTS
    ensures Inv(FreeSlot(st, i)) && FreeSlot(st, i).slots == st.slots[i := None]
    ensures FreeSlot(st, i) == st.(slots := st.slots[i := None], freed := FreeSlot(st, i).freed)
  {
    var next := FreeSlot(st, i);
    if st.slots[i].Some? {
      var data := st.slots[i].value.data;
      ReleaseIs(st, data);
      forall d: nat ensures DataOk(next, d) {
        assert DataOk(st, d);
        SlotSet(st.slots, i, None, d);
        CountMore(st.freed, data, d);
      }
      SlotsInvLess(st, next, i);
    } else {
      assert st.slots[i := None] == st.slots;
    }
  }

  lemma GivenAway(st: State, data: Data)
    requires Inv(st)
    ensures Inv(Release(st.(given := st.given + Taken(data)), data))
  {
    var given := st.(given := st.given + Taken(data));
    var next := Release(given, data);
    ReleaseIs(given, data);
    forall d: nat ensures DataOk(next, d) {
      assert DataOk(st, d);
      CountMore(st.freed, data, d);
      CountMore(st.given, data, d);
    }
    SlotsInvSame(st, next);
  }

  /** A new callback in an empty slot. */
  function Put(st: State, i: nat, fn: nat, data: Data, now: int): State
    requires i < |st.slots|
  {
    var id := NextId(st.lastId);
    var cb := Callback(id, fn, data, now, |st.issued| + 1);
    st.(slots := st.slots[i := Some(cb)], lastId := id, issued := st.issued + [Handle(i, id)],
        given := st.given + Taken(data))
  }

  lemma PutKeepsData(st: State, i: nat, fn: nat, data: Data, now: int)
    requires DataInv(st) && |st.slots| == SLOTS && i < SLOTS && st.slots[i].None?
    ensures DataInv(Put(st, i, fn, data, now))
  {
    var next := Put(st, i, fn, data, now);
    forall d: nat ensures DataOk(next, d) {
      assert DataOk(st, d);
      SlotSet(st.slots, i, next.slots[i], d);
      CountMore(st.given, data, d);
    }
  }

  lemma PutKeepsSlots(st: State, i: nat, fn: nat, data: Data, now: int)
    requires SlotsInv(st) && i < SLOTS && st.slots[i].None?
    ensures SlotsInv(Put(st, i, fn, data, now))
  {
    var next := Put(st, i, fn, data, now);
    IdRange(|st.issued|);
    IdRange(|st.issued| + 1);
    HandleParts(i, next.lastId);
    forall j: nat ensures SlotOk(next, j) { assert SlotOk(st, j); }
    forall n: nat ensures HandleOk(next, n) { assert HandleOk(st, n); }
  }

  /** Creating is making room and putting a callback there. */
  lemma NewIsPut(st: State, fn: nat, data: Data, evict: nat, now: int)
    requires Inv(st) && evict < SLOTS
    ensures var empty := Empty(st.slots, 0);
            var i := if empty == SLOTS then evict else empty;
            New(st, Some(fn), data, evict, now) == Put(FreeSlot(st, i), i, fn, data, now)
  {
    var empty := Empty(st.slots, 0);
    var i := if empty == SLOTS then evict else empty;
    FreeSlotKeeps(st, i);
  }

  lemma NewKeeps(st: State, fn: Option<nat>, data: Data, evict: nat, now: int)
    requires Inv(st) && evict < SLOTS
    ensures Inv(New(st, fn, data, evict, now))
  {
    if fn.None? {
      GivenAway(st, data);
    } else {
      var empty := Empty(st.slots, 0);
      var i := if empty == SLOTS then evict else empty;
      FreeSlotKeeps(st, i);
      PutKeepsSlots(FreeSlot(st, i), i, fn.value, data, now);
      PutKeepsData(FreeSlot(st, i), i, fn.value, data, now);
      NewIsPut(st, fn.value, data, evict, now);
    }
  }

  lemma StartKeeps(st: State, h: nat)
    requires Inv(st)
    ensures Inv(Start(st, h))
  {
    if Found(st, h).Some? {
      var i := Found(st, h).value;
      var cb := st.slots[i].value;
      var next := Start(st, h);
      assert SlotOk(st, i);
      forall d: nat ensures DataOk(next, d) {
        assert DataOk(st, d);
        SlotSet(st.slots, i, None, d);
        RunningMore(st.running, cb, d);
      }
      forall j: nat ensures SlotOk(next, j) {
        assert SlotOk(st, j);
        SameSlot(st, i, j);
      }
      forall n: nat ensures HandleOk(next, n) { assert HandleOk(st, n); }
    }
  }

  /** No two slots hold the same callback. */
  lemma SameSlot(st: State, i: nat, j: nat)
    requires SlotsInv(st) && i < SLOTS && st.slots[i].Some?
    ensures j < SLOTS && st.slots[j].Some? && st.slots[i].value.serial == st.slots[j].value.serial ==> i == j
  {
    if j < SLOTS && st.slots[j].Some? {
      assert SlotOk(st, i) && SlotOk(st, j);
      IdRange(st.slots[i].value.serial);
      IdRange(st.slots[j].value.serial);
      HandleParts(i, st.slots[i].value.id);
      HandleParts(j, st.slots[j].value.id);
    }
  }

  lemma FinishKeeps(st: State, k: nat)
    requires Inv(st) && k < |st.running|
    ensures Inv(Finish(st, k))
  {
    var next := Finish(st, k);
    var data := st.running[k].data;
    ReleaseIs(st, data);
    forall d: nat ensures DataOk(next, d) {
      assert DataOk(st, d);
      RunningCut(st.running, k, d);
      CountMore(st.freed, data, d);
    }
    SlotsInvSame(st, next);
  }

  /** Pruning empties exactly the slots that are too old. */
  lemma {:induction false} PruneKeeps(st: State, before: int, n: nat)
    requires Inv(st) && n <= SLOTS
    ensures Inv(Prune(st, before, n)) && Prune(st, before, n).running == st.running
    ensures forall i | 0 <= i < SLOTS ::
              Prune(st, before, n).slots[i]
              == if i < n && st.slots[i].Some? && st.slots[i].value.created < before then None else st.slots[i]
  {
    if n > 0 {
      PruneKeeps(st, before, n - 1);
      FreeSlotKeeps(Prune(st, before, n - 1), n - 1);
    }
  }

  lemma {:induction false} FreeAllKeeps(st: State, n: nat)
    requires Inv(st) && n <= SLOTS
    ensures Inv(FreeAll(st, n)) && FreeAll(st, n).running == st.running && FreeAll(st, n).given == st.given
    ensures forall i | 0 <= i < n :: FreeAll(st, n).slots[i].None?
  {
    if n > 0 {
      FreeAllKeeps(st, n - 1);
      FreeSlotKeeps(FreeAll(st, n - 1), n - 1);
    }
  }

  lemma StepKeeps(st: State, s: Step)
    requires Inv(st) && Enabled(st, s)
    ensures Inv(Apply(st, s))
  {
    match s
    case DoNew(fn, data, evict, now) => NewKeeps(st, fn, data, evict, now);
    case DoReply(clientCb, ok, fn, data, evict, now) =>
      NewKeeps(st, if clientCb == 0 || !ok then None else fn, data, evict, now);
    case DoStart(handle) => StartKeeps(st, handle);
    case DoFinish(k) => FinishKeeps(st, k);
    case DoPrune(before) => PruneKeeps(st, before, SLOTS);
    case DoFree => FreeAllKeeps(st, SLOTS);
  }

  /** The states after 0, 1, 2, ... steps. */
  ghost predicate IsRun(states: seq<State>, steps: seq<Step>) {
    && |states| == |steps| + 1 && states[0] == Initial()
    && forall k {:trigger steps[k]} :: 0 <= k < |steps| ==>
         |states[k].slots| == SLOTS && Enabled(states[k], steps[k]) && states[k + 1] == Apply(states[k], steps[k])
  }

  lemma {:induction false} RunKeeps(states: seq<State>, steps: seq<Step>, k: nat)
    requires IsRun(states, steps) && k < |states|
    ensures Inv(states[k])
  {
    if k == 0 {
      forall d: nat ensures DataOk(Initial(), d) { }
      forall i: nat ensures SlotOk(Initial(), i) { }
      forall n: nat ensures HandleOk(Initial(), n) { }
    } else {
      RunKeeps(states, steps, k - 1);
      assert Enabled(states[k - 1], steps[k - 1]);
      StepKeeps(states[k - 1], steps[k - 1]);
    }
  }

  // ----- what it comes to -----

  /** Handles are not zero, and two callbacks have the same one exactly if they went to the same
      slot a multiple of 65535 creations apart. */
  lemma HandlesFarApart(states: seq<State>, steps: seq<Step>, k: nat, m: nat, n: nat)
    requires IsRun(states, steps) && k < |states| && m <= n < |states[k].issued|
    ensures states[k].issued[m] != 0 && states[k].issued[n] != 0
    ensures states[k].issued[m] == states[k].issued[n]
       <==> states[k].issued[m] / 0x1_0000 == states[k].issued[n] / 0x1_0000 && (n - m) % 0xffff == 0
  {
    RunKeeps(states, steps, k);
    assert HandleOk(states[k], m) && HandleOk(states[k], n);
    IdRange(m + 1);
    IdRange(n + 1);
    if m < n { SameId(m + 1, n + 1); }
  }

  /** Firing a handle runs the live callback that was issued this handle, up to the bits that are
      cut off, and there is at most one; otherwise it runs nothing. */
  lemma FireFindsLive(states: seq<State>, steps: seq<Step>, k: nat, h: nat, i: nat)
    requires IsRun(states, steps) && k < |states| && i < |states[k].slots| && states[k].slots[i].Some?
    ensures var st := states[k];
            var cb := st.slots[i].value;
            && 1 <= cb.serial <= |st.issued|
            && (Found(st, h) == Some(i) <==> st.issued[cb.serial - 1] == h % 0x1_0000_0000)
  {
    RunKeeps(states, steps, k);
    var st := states[k];
    var cb := st.slots[i].value;
    assert SlotOk(st, i);
    IdRange(cb.serial);
    HandleParts(i, cb.id);
    HandleBits(h);
  }

  lemma HandleBits(h: nat)
    ensures h % 0x1_0000_0000 == Handle(h / 0x1_0000 % 0x1_0000, h % 0x1_0000)
  {
    var q := h / 0x1_0000;
    assert h == 0x1_0000 * q + h % 0x1_0000;
    assert q == 0x1_0000 * (q / 0x1_0000) + q % 0x1_0000;
    assert h == 0x1_0000_0000 * (q / 0x1_0000) + Handle(q % 0x1_0000, h % 0x1_0000);
  }

  /** A callback is created exactly for a successful reply that is wanted and has one to carry. */
  lemma ReplyCarries(st: State, clientCb: nat, ok: bool, fn: Option<nat>, data: Data, evict: nat, now: int)
    requires Inv(st) && evict < SLOTS
    ensures |Reply(st, clientCb, ok, fn, data, evict, now).issued|
            == |st.issued| + if clientCb != 0 && ok && fn.Some? then 1 else 0
  {
  }

  /** What is found leaves its slot and runs, and nothing else changes. */
  lemma StartRuns(st: State, h: nat, i: nat)
    requires Inv(st) && Found(st, h) == Some(i)
    ensures i < SLOTS && st.slots[i].Some?
    ensures Start(st, h) == State(st.slots[i := None], st.lastId, st.issued, st.running + [st.slots[i].value],
                                  st.started + [st.slots[i].value.serial], st.freed, st.given)
  {
  }

  /** No callback is started twice, and none while it still waits in a slot. */
  lemma StartedOnce(states: seq<State>, steps: seq<Step>, k: nat)
    requires IsRun(states, steps) && k < |states|
    ensures Distinct(states[k].started)
    ensures forall i | 0 <= i < |states[k].slots| && states[k].slots[i].Some? :: states[k].slots[i].value.serial !in states[k].started
  {
    RunKeeps(states, steps, k);
    forall i | 0 <= i < |states[k].slots| && states[k].slots[i].Some? ensures states[k].slots[i].value.serial !in states[k].started {
      assert SlotOk(states[k], i);
    }
  }

  /** Data is freed as often as it was handed over, less what a slot or a running callback still
      holds; and once the client is freed, all of it has been. */
  lemma FreedOnce(states: seq<State>, steps: seq<Step>, k: nat, d: nat)
    requires IsRun(states, steps) && k < |states|
    ensures DataOk(states[k], d)
    ensures k > 0 && steps[k - 1].DoFree? ==> Count(states[k].freed, d) == Count(states[k].given, d)
  {
    RunKeeps(states, steps, k);
    assert DataOk(states[k], d);
    if k > 0 && steps[k - 1].DoFree? {
      var j := k - 1;
      RunKeeps(states, steps, j);
      assert states[j + 1] == Apply(states[j], steps[j]) && Enabled(states[j], steps[j]);
      FreeAllKeeps(states[j], SLOTS);
      var st := states[k];
      assert forall i | 0 <= i < SLOTS :: st.slots[i].None?;
      assert SlotsHold(st.slots, d) == 0 && RunningHold(st.running, d) == 0;
    }
  }

  /** A callback is evicted only if every slot is taken, and only one is; no other slot changes. */
  lemma NewTouchesOneSlot(st: State, fn: nat, data: Data, evict: nat, now: int)
    requires Inv(st) && evict < SLOTS
    ensures var next := New(st, Some(fn), data, evict, now);
            exists i | 0 <= i < SLOTS ::
              && next.slots == st.slots[i := next.slots[i]] && next.slots[i].Some?
              && next.slots[i].value == Callback(next.lastId, fn, data, now, |next.issued|)
              && (st.slots[i].Some? ==> i == evict && forall j | 0 <= j < SLOTS :: st.slots[j].Some?)
              && (st.slots[i].None? ==> next.freed == st.freed)
  {
    var next := New(st, Some(fn), data, evict, now);
    var empty := Empty(st.slots, 0);
    var i := if empty == SLOTS then evict else empty;
    assert next.slots == st.slots[i := next.slots[i]];
  }
}
