/** The server's slot array and its counter of active clients: the sections run under the lock. */
module HttpSlots {
  import opened Bytes

  /** A client thread: Entry before it has reported ready, Sending while it is stuck in a send whose
      peer does not read, Cleanup before it closes its client, Marked while it holds the server lock;
      Exited has returned, Joined has been waited for. */
  datatype Phase = NoThread | Entry | Serving | Sending | Cleanup | WantLock | Marked | Returning | Exited | Joined

  /** `shut`: stop has shut the socket down, so that receives and sends on it end. */
  datatype Conn = Conn(phase: Phase, slot: nat, posted: bool, closes: nat, shut: bool)

  /** `handle` is the thread the slot's task object runs, named by the connection it serves. */
  datatype Slot = Slot(active: bool, joined: bool, fd: Option<nat>, handle: Option<nat>)

  predicate Live(p: Phase) {
    p != NoThread && p != Joined
  }

  predicate Unmarked(p: Phase) {
    p in {Entry, Serving, Sending, Cleanup, WantLock}
  }

  predicate Open(p: Phase) {
    p in {Entry, Serving, Sending, Cleanup}
  }

  /** `exited`: the thread behind the slot's task has returned, so a zero-timeout join succeeds. */
  function TryReap(t: Slot, exited: bool): Slot {
    if t.active then t
    else if t.handle == None then t.(joined := true)
    else if t.joined then t.(handle := None)
    else if exited then t.(joined := true, handle := None)
    else t
  }

  function FirstFree(slots: seq<Slot>): (k: nat)
    ensures k <= |slots|
    ensures k < |slots| ==> !slots[k].active && slots[k].handle == None
    ensures forall j | 0 <= j < k :: slots[j].active || slots[j].handle != None
  {
    if slots == [] then 0
    else if !slots[0].active && slots[0].handle == None then 0
    else
      var k := FirstFree(slots[1..]);
      assert forall j | 0 < j < k + 1 :: slots[j] == slots[1..][j - 1];
      k + 1
  }

  lemma {:induction false} FirstFreeIs(slots: seq<Slot>, k: nat)
    requires k <= |slots| && (k < |slots| ==> !slots[k].active && slots[k].handle == None)
    requires forall j | 0 <= j < k :: slots[j].active || slots[j].handle != None
    ensures FirstFree(slots) == k
  {
    if k > 0 {
      assert slots[0].active || slots[0].handle != None;
      FirstFreeIs(slots[1..], k - 1);
    }
  }

  function Actives(slots: seq<Slot>): nat {
    if slots == [] then 0 else Actives(slots[..|slots| - 1]) + if slots[|slots| - 1].active then 1 else 0
  }

  lemma {:induction false} ActivesUpdate(slots: seq<Slot>, k: nat, t: Slot)
    requires k < |slots|
    ensures Actives(slots[k := t]) == Actives(slots) - (if slots[k].active then 1 else 0) + (if t.active then 1 else 0)
  {
    var n := |slots| - 1;
    if k < n {
      ActivesUpdate(slots[..n], k, t);
      assert slots[k := t][..n] == slots[..n][k := t];
    } else {
      assert slots[k := t][..n] == slots[..n];
    }
  }

  /** The count never exceeds the number of slots, and leaves room for a slot that is not active. */
  lemma {:induction false} ActivesBound(slots: seq<Slot>)
    ensures Actives(slots) <= |slots|
    ensures forall k | 0 <= k < |slots| && !slots[k].active :: Actives(slots) < |slots|
    ensures forall k | 0 <= k < |slots| && slots[k].active :: Actives(slots) > 0
  {
    if slots != [] {
      ActivesBound(slots[..|slots| - 1]);
    }
  }

  lemma {:induction false} NoneActive(slots: seq<Slot>)
    requires forall k | 0 <= k < |slots| :: !slots[k].active
    ensures Actives(slots) == 0
  {
    if slots != [] {
      NoneActive(slots[..|slots| - 1]);
    }
  }

  /** The server's part that its lock protects. */
  class Pool {
    const slots: array<Slot>
    var activeCount: int

    /** _client_slot_init for every slot. */
    constructor (max: nat)
      ensures fresh(slots) && slots.Length == max && activeCount == 0
      ensures forall k | 0 <= k < max :: slots[k] == Slot(false, true, None, None)
    {
      slots := new Slot[max](_ => Slot(false, true, None, None));
      activeCount := 0;
    }

    method FindFreeSlot() returns (k: nat)
      ensures k == FirstFree(slots[..])
    {
      k := 0;
      while k < slots.Length
        invariant k <= slots.Length
        invariant forall j | 0 <= j < k :: slots[j].active || slots[j].handle != None
      {
        if !slots[k].active && slots[k].handle == None {
          break;
        }
        k := k + 1;
      }
      FirstFreeIs(slots[..], k);
    }

    /** `exited[k]`: what the zero-timeout join of slot k finds out about its thread. */
    method ReapFinishedSlots(exited: seq<bool>)
      requires |exited| == slots.Length
      modifies slots
      ensures forall k | 0 <= k < slots.Length :: slots[k] == TryReap(old(slots[k]), exited[k])
    {
      for i := 0 to slots.Length
        invariant forall k | 0 <= k < i :: slots[k] == TryReap(old(slots[k]), exited[k])
        invariant forall k | i <= k < slots.Length :: slots[k] == old(slots[k])
      {
        slots[i] := TryReap(slots[i], exited[i]);
      }
    }

    /** A finishing thread gives its slot up once, and the counter keeps step with the slots. */
    method MarkSlotFinished(k: nat)
      requires k < slots.Length && activeCount == Actives(slots[..])
      modifies this, slots
      ensures slots[..] == old(slots[..])[k := old(slots[k]).(active := false)]
      ensures activeCount == Actives(slots[..])
    {
      ActivesUpdate(slots[..], k, slots[k].(active := false));
      ActivesBound(slots[..]);
      assert slots[..][k] == slots[k];
      if slots[k].active {
        slots[k] := slots[k].(active := false);
        if activeCount > 0 {
          activeCount := activeCount - 1;
        }
      }
      assert slots[..] == old(slots[..])[k := old(slots[k]).(active := false)];
    }
  }
}
