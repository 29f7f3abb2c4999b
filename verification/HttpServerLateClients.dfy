/** When an untimed join after stop gets through without any peer's help: exactly if every client still
    being served has been shut down and the accept task can start no further one. */
module HttpServerLateClients {
  import opened Bytes
  import opened HttpSlots
  import opened HttpServer
  import opened HttpServerGuarantees
  import opened HttpServerShutdown

  /** Slot k is free, or the reaping pass that has come to slot i can free it. */
  predicate Obtainable(t: Slot, k: nat, i: nat) {
    t.handle == None || (k >= i && !t.active)
  }

  predicate SomeObtainable(slots: seq<Slot>, i: nat) {
    exists k :: 0 <= k < |slots| && Obtainable(slots[k], k, i)
  }

  /** The accept task has a client for which it may yet start a thread. */
  predicate CanStart(s: State) {
    match s.accept
    case WantsLock(_) => true
    case Reaping(_, i) => SomeObtainable(s.slots, i)
    case Creating(_, _) => true
    case _ => false
  }

  // ---- no client to come ------------------------------------------------------------------------

  lemma SettledMoves(s: State)
    requires Closing(s) && AllShut(s)
    ensures !Blocked(s)
  {
    var e := SomeStep(s);
    if Own(e) {
      OwnIsUnaided(e);
      hide Step, Closing;
    }
  }

  /** While another thread has the lock, no client thread gives its slot up. */
  lemma ClientKeepsSlots(s: State, e: Event)
    requires Typed(s) && s.lock == Some(AcceptTask)
    ensures var r := StepClient(s, e);
            && r.accept == s.accept && |r.slots| == |s.slots|
            && forall k | 0 <= k < |s.slots| ::
                 r.slots[k].handle == s.slots[k].handle && r.slots[k].active == s.slots[k].active
  {
  }

  lemma NoneToComeAtReap(s: State)
    requires Inv(s) && s.accept.Reaping? && !CanStart(s)
    ensures !CanStart(Reap(s))
  {
    hide Actives, ConnsOk, SlotsOk, LockOk, TryReap;
    var i := s.accept.i;
    if i < |s.slots| {
      assert !Obtainable(s.slots[i], i, i);
      ActiveStays(s.slots[i], s.slots[i].handle.Some? && Is(s, s.slots[i].handle.value, Exited));
      assert Reap(s).slots == s.slots;
      forall k | 0 <= k < |s.slots| ensures !Obtainable(s.slots[k], k, i + 1) {
        assert !Obtainable(s.slots[k], k, i);
      }
    } else {
      forall k | 0 <= k < |s.slots| ensures s.slots[k].handle != None {
        assert !Obtainable(s.slots[k], k, i);
      }
      FirstFreeIs(s.slots, |s.slots|);
    }
  }

  lemma ActiveStays(t: Slot, exited: bool)
    requires t.active
    ensures TryReap(t, exited) == t
  {
  }

  lemma NoneToCome(s: State, e: Event)
    requires Closing(s) && !CanStart(s)
    ensures !CanStart(Step(s, e))
  {
    if OfClient(e) {
      NoneToComeAtClient(s, e);
    } else if OfControl(e) {
      NoneToComeAtControl(s, e);
    } else if e == ReapNext && s.accept.Reaping? {
      NoneToComeAtReap(s);
    } else {
      NoneToComeAtAccept(s, e);
    }
    hide CanStart, StepClient, StepControl, Reap, Inv;
  }

  lemma NoneToComeAtClient(s: State, e: Event)
    requires Closing(s) && !CanStart(s)
    ensures !CanStart(StepClient(s, e))
  {
    if s.accept.Reaping? {
      ClientKeepsSlots(s, e);
      hide StepClient;
      var r := StepClient(s, e);
      forall k | 0 <= k < |r.slots| ensures !Obtainable(r.slots[k], k, s.accept.i) {
        assert !Obtainable(s.slots[k], k, s.accept.i);
      }
    }
  }

  lemma NoneToComeAtControl(s: State, e: Event)
    requires Closing(s) && !CanStart(s)
    ensures !CanStart(StepControl(s, e))
  {
    hide LockOk, ConnsOk, SlotsOk, CountOk, AllReported;
  }

  lemma NoneToComeAtAccept(s: State, e: Event)
    requires Closing(s) && !CanStart(s) && !(e == ReapNext && s.accept.Reaping?)
    ensures !CanStart(StepAccept(s, e))
  {
    hide LockOk, ConnsOk, SlotsOk, CountOk, AllReported, Reap, SomeObtainable;
  }

  lemma SettledStays(s: State, e: Event)
    requires Closing(s) && AllShut(s) && !CanStart(s) && Unaided(e)
    ensures Step(s, e).control == Idle
            || (Closing(Step(s, e)) && AllShut(Step(s, e)) && !CanStart(Step(s, e)))
  {
    StaysClosing(s, e);
    NoneToCome(s, e);
    if e == StartClient(true) {
      hide Inv, AllReported, AllShut;
      assert Step(s, e) == s;
    } else {
      AllShutStays(s, e);
      hide Step, Closing, AllShut, CanStart;
    }
  }

  lemma IdleStays(s: State, e: Event)
    requires Typed(s) && s.control == Idle && Unaided(e)
    ensures Step(s, e).control == Idle
  {
    hide FirstFree, TryReap;
  }

  lemma {:induction false} SettledNeedsNoPeer(s: State, es: seq<Event>)
    requires Closing(s) && AllShut(s) && !CanStart(s) && AllUnaided(es)
    ensures var r := Run(s, es);
            r.control == Idle || (Closing(r) && AllShut(r) && !CanStart(r))
  {
    if es != [] {
      var n := |es| - 1;
      var r := Run(s, es[..n]);
      SettledNeedsNoPeer(s, es[..n]);
      if r.control == Idle {
        IdleStays(r, es[n]);
      } else {
        SettledStays(r, es[n]);
      }
      hide Step, Closing, AllShut, Inv, Unaided, CanStart;
    }
  }

  // ---- a client to come -------------------------------------------------------------------------

  /** The way to a thread that stop has missed: it is there, or the accept task can get to it. */
  predicate Late(s: State) {
    CanStart(s) || !AllShut(s)
  }

  /** One step on that way. */
  ghost predicate Nearer(s: State, e: Event)
    requires Typed(s)
  {
    Unaided(e) && !OfControl(e) && Step(s, e) != s && Late(Step(s, e))
  }

  lemma StartsIt(s: State)
    requires Inv(s) && s.accept.Creating?
    ensures Nearer(s, StartClient(true))
  {
    hide LockOk, CountOk, SlotsOk, CanStart;
    var t := Step(s, StartClient(true));
    assert ConnOk(s.slots, s.accept, s.accept.c, s.conns[s.accept.c]);
    assert t.conns[s.accept.c].phase == Entry && !t.conns[s.accept.c].shut;
  }

  /** Under the lock, the thread of an inactive slot has only to exit, or has. */
  lemma InactiveIsOver(s: State, k: nat)
    requires Inv(s) && s.accept.Reaping? && k < |s.slots| && !s.slots[k].active && s.slots[k].handle.Some?
    ensures s.slots[k].handle.value < |s.conns| && !s.slots[k].joined
    ensures s.conns[s.slots[k].handle.value].phase in {Returning, Exited}
  {
    hide Actives, ConnsOk, CountOk;
    assert SlotOk(s.conns, s.accept, k, s.slots[k]);
    hide SlotsOk;
  }

  lemma ExitsFirst(s: State, k: nat)
    requires Inv(s) && s.accept.Reaping? && k < |s.slots| && Obtainable(s.slots[k], k, s.accept.i)
    requires s.slots[k].handle.Some? && Is(s, s.slots[k].handle.value, Returning)
    ensures Nearer(s, ThreadExits(s.slots[k].handle.value))
  {
    assert Typed(s);
    hide Inv;
    var t := Step(s, ThreadExits(s.slots[k].handle.value));
    assert t.slots == s.slots && t.accept == s.accept && t.conns != s.conns;
    assert Obtainable(t.slots[k], k, t.accept.i);
  }

  /** The pass goes on to the next slot, freeing slot k if it has come to it. */
  lemma PassesSlot(s: State, k: nat)
    requires Inv(s) && s.accept.Reaping? && s.accept.i < |s.slots|
    requires k < |s.slots| && Obtainable(s.slots[k], k, s.accept.i)
    requires s.slots[k].handle.Some? ==> Is(s, s.slots[k].handle.value, Exited)
    ensures Nearer(s, ReapNext)
  {
    if s.slots[k].handle.Some? {
      InactiveIsOver(s, k);
    }
    hide Inv, AllShut;
    var t := Step(s, ReapNext);
    assert t == Reap(s);
    assert Obtainable(t.slots[k], k, t.accept.i);
  }

  /** With a free slot at its end, the pass hands one out. */
  lemma HandsOut(s: State, k: nat)
    requires Inv(s) && s.accept.Reaping? && s.accept.i == |s.slots| && k < |s.slots| && s.slots[k].handle == None
    ensures Nearer(s, ReapNext)
  {
    hide Actives, ConnsOk, LockOk;
    assert SlotOk(s.conns, s.accept, k, s.slots[k]);
    hide SlotsOk;
    ActivesBound(s.slots);
    assert FirstFree(s.slots) < |s.slots|;
    hide FirstFree, AllShut;
    assert Step(s, ReapNext) == Reap(s);
  }

  lemma ReapsForIt(s: State) returns (e: Event)
    requires Inv(s) && s.accept.Reaping? && CanStart(s)
    ensures Nearer(s, e)
  {
    hide Nearer;
    var k: nat :| k < |s.slots| && Obtainable(s.slots[k], k, s.accept.i);
    assert s.accept.i <= |s.slots|;
    e := ReapNext;
    if s.slots[k].handle.Some? {
      InactiveIsOver(s, k);
      if Is(s, s.slots[k].handle.value, Returning) {
        e := ThreadExits(s.slots[k].handle.value);
        ExitsFirst(s, k);
      } else {
        PassesSlot(s, k);
      }
    } else if s.accept.i < |s.slots| {
      PassesSlot(s, k);
    } else {
      HandsOut(s, k);
    }
  }

  /** Before it has the lock, the accept task can let the first slot's thread come to its end. */
  lemma LetsOneEnd(s: State, c: nat) returns (e: Event)
    requires Inv(s) && AllShut(s) && s.accept.WantsLock? && s.lock == None
    requires c < |s.conns| && Unmarked(s.conns[c].phase)
    ensures Nearer(s, e)
  {
    e := match s.conns[c].phase
         case Entry => Ready(c, true)
         case Serving => Serves(c, false)
         case Sending => SendFails(c)
         case Cleanup => ClosesClient(c)
         case _ => Marks(c);
    hide Inv;
    var t := Step(s, e);
    assert t.accept == s.accept && t.conns[c].phase != s.conns[c].phase;
    hide Step, AllShut;
  }

  lemma TakesLock(s: State, k: nat)
    requires Inv(s) && s.accept.WantsLock? && s.lock == None
    requires k < |s.slots| && (s.slots[k].handle == None || !s.slots[k].active)
    ensures Nearer(s, AcceptLocks)
  {
    assert Typed(s);
    hide Inv;
    var t := Step(s, AcceptLocks);
    assert t.slots == s.slots && t.accept == Reaping(s.accept.c, 0);
    assert Obtainable(t.slots[k], k, 0);
    hide Step, AllShut;
  }

  lemma LetsRelease(s: State, c: nat)
    requires Inv(s) && s.accept.WantsLock? && Is(s, c, Marked)
    ensures Nearer(s, MarkReleases(c))
  {
    assert Typed(s);
    hide Inv;
    var t := Step(s, MarkReleases(c));
    assert t.accept == s.accept && t.conns[c].phase != s.conns[c].phase;
    hide Step, AllShut;
  }

  /** An active slot's thread has not yet given it up. */
  lemma ActiveIsUnmarked(s: State, k: nat)
    requires Inv(s) && !s.accept.Creating? && k < |s.slots| && s.slots[k].active && s.slots[k].handle.Some?
    ensures s.slots[k].handle.value < |s.conns| && Unmarked(s.conns[s.slots[k].handle.value].phase)
  {
    hide Actives, ConnsOk, LockOk, CountOk;
    assert SlotOk(s.conns, s.accept, k, s.slots[k]);
  }

  lemma WaitsForIt(s: State) returns (e: Event)
    requires Closing(s) && AllShut(s) && s.accept.WantsLock?
    ensures Nearer(s, e)
  {
    hide Nearer, AllReported, AllShut, ConnsOk, SlotsOk, CountOk;
    if s.lock == None {
      if s.slots[0].handle == None || !s.slots[0].active {
        e := AcceptLocks;
        TakesLock(s, 0);
      } else {
        ActiveIsUnmarked(s, 0);
        e := LetsOneEnd(s, s.slots[0].handle.value);
      }
    } else {
      var c := s.lock.value.c;
      assert s.conns[c].phase == Marked;
      e := MarkReleases(c);
      LetsRelease(s, c);
    }
  }

  lemma NearerStep(s: State) returns (e: Event)
    requires Closing(s) && AllShut(s) && CanStart(s)
    ensures Typed(s) && Nearer(s, e)
  {
    assert Typed(s);
    match s.accept
    case WantsLock(_) => e := WaitsForIt(s);
    case Reaping(_, _) => e := ReapsForIt(s);
    case Creating(_, _) =>
      e := StartClient(true);
      StartsIt(s);
  }

  lemma NearerStays(s: State, e: Event)
    requires Closing(s) && Nearer(s, e)
    ensures Unaided(e) && Closing(Step(s, e)) && Late(Step(s, e)) && Measure(Step(s, e)) < Measure(s)
  {
    EveryStepCounts(s, e);
    AcceptStays(s, e);
    if OfClient(e) {
      ClientMoves(s, e);
    }
    hide StepAccept, StepClient, StepControl, Inv, AllReported, Quiet, Measure, Late;
  }

  /** Once a client is missed, or can still be, the server may come to wait for that client's peer. */
  lemma {:induction false} LateBlocks(s: State) returns (es: seq<Event>)
    requires Closing(s) && Late(s)
    ensures Inv(s) && AllUnaided(es) && Blocked(Run(s, es))
    decreases Measure(s)
  {
    if !AllShut(s) {
      var c: nat :| c < |s.conns| && s.conns[c].phase in {Entry, Serving, Sending} && !s.conns[c].shut;
      es := ExposedBlocks(s, c);
      hide Closing, Blocked, Run;
    } else {
      assert CanStart(s);
      hide *;
      ClosingInv(s);
      var e := NearerStep(s);
      NearerStays(s, e);
      var rest := LateBlocks(Step(s, e));
      UnaidedCons(e, rest);
      RunOne(s, e, rest);
      es := [e] + rest;
    }
  }

  /** An untimed join needs no peer's help exactly if every client still being served has been shut
      down and no further one can be started. */
  lemma {:induction false} JoinNeedsNoPeerIff(s: State)
    requires Closing(s)
    ensures NeedsNoPeer(s) <==> AllShut(s) && !CanStart(s)
  {
    if AllShut(s) && !CanStart(s) {
      forall es | AllUnaided(es) ensures !Blocked(Run(s, es)) {
        var r := Run(s, es);
        SettledNeedsNoPeer(s, es);
        if r.control != Idle {
          SettledMoves(r);
        }
        hide Inv, AllReported, AllShut, CanStart, Run, Step;
      }
    } else {
      var es := LateBlocks(s);
      hide Closing, AllShut, Blocked, CanStart;
    }
  }
}
