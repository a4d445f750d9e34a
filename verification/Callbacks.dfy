/**
 The callbacks of a client, in the four slots that it keeps them in.
 */
module Callbacks {
  import opened Options
  import opened CallbackModel

  class Client {
    const cbs: array<Option<Callback>>
    /** 16 bits, counted up at every creation. */
    var cbsId: nat
    /** What has been done, in order. */
    var issued: seq<nat>
    var running: seq<Callback>
    var started: seq<nat>
    var freed: seq<nat>
    var given: seq<nat>

    ghost predicate Valid()
      reads this
    {
      cbs.Length == SLOTS && cbsId < 0x1_0000
    }

    ghost function Snap(): State
      reads this, cbs
    {
      State(cbs[..], cbsId, issued, running, started, freed, given)
    }

    constructor ()
      ensures Valid() && fresh(cbs) && Snap() == Initial()
    {
      cbs := new Option<Callback>[SLOTS](_ => None);
      cbsId := 0;
      issued, running, started, freed, given := [], [], [], [], [];
      new;
      assert cbs[..] == Initial().slots;
    }

    method CbDataFree(data: Data)
      modifies this`freed
      ensures Snap() == Release(old(Snap()), data)
    {
      if data.Some? {
        freed := freed + [data.value];
      }
    }

    method CbRemove(i: nat)
      requires Valid() && i < SLOTS
      modifies cbs
      ensures Snap() == old(Snap()).(slots := old(Snap()).slots[i := None])
    {
      cbs[i] := None;
      assert cbs[..] == old(cbs[..])[i := None];
    }

    method CbFree(i: nat)
      requires Valid() && i < SLOTS && cbs[i].Some?
      modifies this`freed, cbs
      ensures Snap() == FreeSlot(old(Snap()), i)
    {
      CbDataFree(cbs[i].value.data);
      CbRemove(i);
    }

    /** Creates a callback, and makes room for it if it must: which slot is then emptied is
        chosen at random. Returns 0 if there is nothing to call. */
    method CbNew(fn: Option<nat>, data: Data, random: nat, now: int) returns (handle: nat)
      requires Valid() && random < SLOTS
      modifies this, cbs
      ensures Valid() && Snap() == New(old(Snap()), fn, data, random, now)
      ensures handle == if fn.None? then 0 else issued[|issued| - 1]
      ensures |issued| == |old(issued)| + if fn.Some? then 1 else 0
    {
      given := given + Taken(data);
      if fn.None? {
        CbDataFree(data);
        return 0;
      }
      var i := 0;
      while i < SLOTS && cbs[i].Some?
        invariant i <= SLOTS && Empty(cbs[..], i) == Empty(cbs[..], 0)
      {
        i := i + 1;
      }
      if i == SLOTS {
        i := random;
        CbFree(i);
      }
      handle := Place(i, fn.value, data, now);
    }

    /** The new callback gets the next number, and its slot. */
    method Place(i: nat, fn: nat, data: Data, now: int) returns (handle: nat)
      requires Valid() && i < SLOTS
      modifies this`cbsId, this`issued, cbs
      ensures Valid() && handle == Handle(i, cbsId)
      ensures var st := old(Snap());
              var cb := Callback(NextId(st.lastId), fn, data, now, |st.issued| + 1);
              Snap() == st.(slots := st.slots[i := Some(cb)], lastId := cb.id, issued := st.issued + [handle])
    {
      cbsId := (cbsId + 1) % 0x1_0000;
      cbsId := if cbsId < 1 then 1 else cbsId;
      cbs[i] := Some(Callback(cbsId, fn, data, now, |issued| + 1));
      handle := i * 0x1_0000 + cbsId;
      issued := issued + [handle];
      assert cbs[..] == old(cbs[..])[i := cbs[i]];
    }

    /** The first half of firing, under the lock. What is returned is then called, without the
        lock; nothing is, if the handle is not that of a live callback. */
    method CbFire(handle: nat) returns (cb: Option<Callback>)
      requires Valid()
      modifies this`running, this`started, cbs
      ensures Valid() && Snap() == Start(old(Snap()), handle)
      ensures cb == match Found(old(Snap()), handle) case None => None case Some(i) => old(cbs[..])[i]
    {
      var slot := handle / 0x1_0000 % 0x1_0000;
      var id := handle % 0x1_0000;
      cb := None;
      if slot < SLOTS && cbs[slot].Some? && cbs[slot].value.id == id {
        cb := cbs[slot];
        CbRemove(slot);
        running := running + [cb.value];
        started := started + [cb.value.serial];
      }
    }

    /** The second half, once the function has returned. */
    method CbFired(k: nat)
      requires Valid() && k < |running|
      modifies this`running, this`freed
      ensures Valid() && Snap() == Finish(old(Snap()), k)
    {
      CbDataFree(running[k].data);
      running := running[..k] + running[k + 1..];
    }

    method CbPrune(before: int)
      requires Valid()
      modifies this`freed, cbs
      ensures Valid() && Snap() == Prune(old(Snap()), before, SLOTS)
    {
      for i := 0 to SLOTS
        invariant Snap() == Prune(old(Snap()), before, i)
      {
        if cbs[i].Some? && cbs[i].value.created < before {
          CbFree(i);
        }
      }
    }

    /** The client is freed. */
    method ClientFreeAll()
      requires Valid() && running == []
      modifies this`freed, cbs
      ensures Valid() && Snap() == FreeAll(old(Snap()), SLOTS)
    {
      for i := 0 to SLOTS
        invariant Snap() == FreeAll(old(Snap()), i)
      {
        if cbs[i].Some? {
          CbFree(i);
        }
      }
    }

    /** A reply to the client's callback `clientCb`; returns the handle that goes with it. */
    method EvsCbFull(clientCb: nat, ok: bool, fn: Option<nat>, data: Data, random: nat, now: int)
      returns (replied: bool, handle: nat)
      requires Valid() && random < SLOTS
      modifies this, cbs
      ensures Valid() && Snap() == Reply(old(Snap()), clientCb, ok, fn, data, random, now)
      ensures replied == (clientCb != 0)
      ensures |issued| == |old(issued)| + if clientCb != 0 && ok && fn.Some? then 1 else 0
      ensures handle == if clientCb != 0 && ok && fn.Some? then issued[|issued| - 1] else 0
    {
      handle := 0;
      if clientCb == 0 {
        var _ := CbNew(None, data, random, now);
        return false, 0;
      }
      if ok {
        handle := CbNew(fn, data, random, now);
      } else {
        var _ := CbNew(None, data, random, now);
      }
      replied := true;
    }
  }
}
